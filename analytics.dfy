/** Analytics: the price-level answers computed from a cleaned, time-ordered
    run of candles (app.py, steps 4 to 7): candle strength, last-candle gap,
    three-candle trend, support/resistance over the last 20 candles and the
    trend-dependent best (pullback) price. */
module Analytics {
  import opened Candles

  datatype Trend = Unknown | Uptrend | Downtrend | Ranging

  /** Number of trailing candles the trend rule and the pullback zone look at. */
  const TrendWindow: nat := 3
  const PullbackWindow: nat := 3
  /** Window of the rolling minimum / maximum behind support and resistance. */
  const SupportResistanceWindow: nat := 20

  // ---------------------------------------------------------------- strength

  /** Body of the most recent candle relative to its open: (close - open) / open. */
  function CandleStrength(s: seq<Candle>): (r: real)
    requires |s| > 0 && s[|s| - 1].open != 0.0
    ensures r * s[|s| - 1].open == s[|s| - 1].close - s[|s| - 1].open
  {
    var c := s[|s| - 1];
    (c.close - c.open) / c.open
  }

  /** With a positive open, the strength's sign is the candle's colour:
      zero for a doji, positive for a bullish and negative for a bearish bar. */
  lemma StrengthSign(s: seq<Candle>)
    requires |s| > 0 && s[|s| - 1].open > 0.0
    ensures CandleStrength(s) == 0.0 <==> s[|s| - 1].close == s[|s| - 1].open
    ensures CandleStrength(s) > 0.0 <==> s[|s| - 1].close > s[|s| - 1].open
    ensures CandleStrength(s) < 0.0 <==> s[|s| - 1].close < s[|s| - 1].open
  {
  }

  // --------------------------------------------------------------------- gap

  /** Open of the last candle minus close of the one before it; absent when
      there is no candle before the last (the index error is caught). */
  function Gap(s: seq<Candle>): (r: Option<real>)
    ensures r.Some? <==> |s| >= 2
    ensures r.Some? ==> s[|s| - 1].open == s[|s| - 2].close + r.value
  {
    if |s| < 2 then None else Some(s[|s| - 1].open - s[|s| - 2].close)
  }

  /** Appending a candle yields the gap between its open and the close of the
      candle it follows, and earlier history plays no part. */
  lemma GapOfAppended(s: seq<Candle>, c: Candle)
    requires |s| > 0
    ensures Gap(s + [c]) == Some(c.open - s[|s| - 1].close)
    ensures forall p :: Gap(p + s + [c]) == Gap(s + [c])
  {
    forall p ensures Gap(p + s + [c]) == Gap(s + [c]) {
      var t := p + s + [c];
      assert t[|t| - 1] == c && t[|t| - 2] == s[|s| - 1];
    }
  }

  // ------------------------------------------------------------------- trend

  /** Three-candle higher-high / higher-low rule. */
  function DetectTrend(s: seq<Candle>): (t: Trend)
    ensures t == Unknown <==> |s| < TrendWindow
  {
    if |s| < TrendWindow then Unknown
    else
      var c := Tail(s, TrendWindow);
      if c[0].high < c[1].high < c[2].high && c[0].low < c[1].low < c[2].low then Uptrend
      else if c[0].high > c[1].high > c[2].high && c[0].low > c[1].low > c[2].low then Downtrend
      else Ranging
  }

  /** Every later value is strictly above every earlier one. */
  predicate StrictlyRising(xs: seq<real>) {
    forall i, j :: 0 <= i < j < |xs| ==> xs[i] < xs[j]
  }

  /** Every later value is strictly below every earlier one. */
  predicate StrictlyFalling(xs: seq<real>) {
    forall i, j :: 0 <= i < j < |xs| ==> xs[i] > xs[j]
  }

  /** The trend, stated over the last three candles as a whole: an uptrend
      exactly when both their highs and their lows rise strictly, a downtrend
      exactly when both fall strictly, and ranging in every other case. */
  lemma {:induction false} TrendClassification(s: seq<Candle>)
    requires |s| >= TrendWindow
    ensures var w := Tail(s, TrendWindow);
      && (DetectTrend(s) == Uptrend <==> StrictlyRising(Highs(w)) && StrictlyRising(Lows(w)))
      && (DetectTrend(s) == Downtrend <==> StrictlyFalling(Highs(w)) && StrictlyFalling(Lows(w)))
      && (DetectTrend(s) == Ranging <==>
            !(StrictlyRising(Highs(w)) && StrictlyRising(Lows(w))) &&
            !(StrictlyFalling(Highs(w)) && StrictlyFalling(Lows(w))))
  {
    var w := Tail(s, TrendWindow);
    var h, l := Highs(w), Lows(w);
    assert h == [w[0].high, w[1].high, w[2].high];
    assert l == [w[0].low, w[1].low, w[2].low];
    RisingOrFallingExclusive(h);
  }

  /** No run of two or more values both rises and falls, so a trend can never
      be up and down at once. */
  lemma RisingOrFallingExclusive(xs: seq<real>)
    requires |xs| >= 2
    ensures !(StrictlyRising(xs) && StrictlyFalling(xs))
  {
    if StrictlyRising(xs) {
      assert xs[0] < xs[1];
    }
  }

  /** A tie between any two of the last three highs, or lows, rules out both
      directions. */
  lemma TieGivesRanging(s: seq<Candle>, i: nat, j: nat)
    requires |s| - TrendWindow <= i < j < |s| && |s| >= TrendWindow
    requires s[i].high == s[j].high || s[i].low == s[j].low
    ensures DetectTrend(s) == Ranging
  {
    var n := |s|;
    var w := Tail(s, TrendWindow);
    assert w[0] == s[n - 3] && w[1] == s[n - 2] && w[2] == s[n - 1];
  }

  /** Only the last three candles matter: history in front of them changes
      nothing. */
  lemma TrendIgnoresHistory(p: seq<Candle>, s: seq<Candle>)
    requires |s| >= TrendWindow
    ensures DetectTrend(p + s) == DetectTrend(s)
  {
    assert Tail(p + s, TrendWindow) == Tail(s, TrendWindow);
  }

  // -------------------------------------------------------------- best price

  /** Pullback zone for a trend: the lowest low of the last three candles in an
      uptrend, their highest high in a downtrend, absent otherwise. `trend` is
      a parameter, as in the source; fewer than three candles mean all of them. */
  function BestPrice(s: seq<Candle>, trend: Trend): (r: Option<real>)
    requires |s| > 0
    ensures r.Some? <==> trend == Uptrend || trend == Downtrend
    ensures var lo := TailStart(|s|, PullbackWindow);
      && (trend == Uptrend ==>
            (forall k :: lo <= k < |s| ==> r.value <= s[k].low) &&
            (exists k :: lo <= k < |s| && r.value == s[k].low))
      && (trend == Downtrend ==>
            (forall k :: lo <= k < |s| ==> s[k].high <= r.value) &&
            (exists k :: lo <= k < |s| && r.value == s[k].high))
  {
    var lo := TailStart(|s|, PullbackWindow);
    match trend
    case Uptrend => Some(MinLow(s, lo))
    case Downtrend => Some(MaxHigh(s, lo))
    case _ => None
  }

  /** The two rules together: in a detected uptrend the pullback price is the
      low of the third-from-last candle, in a detected downtrend its high. */
  lemma BestPriceFollowsTrend(s: seq<Candle>)
    requires |s| > 0
    ensures DetectTrend(s) == Uptrend ==> BestPrice(s, Uptrend) == Some(s[|s| - 3].low)
    ensures DetectTrend(s) == Downtrend ==> BestPrice(s, Downtrend) == Some(s[|s| - 3].high)
    ensures DetectTrend(s) !in {Uptrend, Downtrend} ==> BestPrice(s, DetectTrend(s)) == None
  {
    if DetectTrend(s) == Uptrend {
      UptrendBestPrice(s);
    } else if DetectTrend(s) == Downtrend {
      DowntrendBestPrice(s);
    }
  }

  lemma UptrendBestPrice(s: seq<Candle>)
    requires DetectTrend(s) == Uptrend
    ensures BestPrice(s, Uptrend) == Some(s[|s| - 3].low)
  {
    var n := |s|;
    var w := Tail(s, TrendWindow);
    assert w[0] == s[n - 3] && w[1] == s[n - 2] && w[2] == s[n - 1];
    assert s[n - 3].low < s[n - 2].low < s[n - 1].low;
    var r := BestPrice(s, Uptrend).value;
    var k :| n - 3 <= k < n && r == s[k].low;
    assert r <= s[n - 3].low;
  }

  lemma DowntrendBestPrice(s: seq<Candle>)
    requires DetectTrend(s) == Downtrend
    ensures BestPrice(s, Downtrend) == Some(s[|s| - 3].high)
  {
    var n := |s|;
    var w := Tail(s, TrendWindow);
    assert w[0] == s[n - 3] && w[1] == s[n - 2] && w[2] == s[n - 1];
    assert s[n - 3].high > s[n - 2].high > s[n - 1].high;
    var r := BestPrice(s, Downtrend).value;
    var k :| n - 3 <= k < n && r == s[k].high;
    assert s[n - 3].high <= r;
  }

  // ------------------------------------------------- support and resistance

  /** Rolling 20-candle minimum of `low` at the last position; undefined while
      fewer than 20 candles exist. */
  function Support(s: seq<Candle>): (r: Option<real>)
    ensures r.Some? <==> |s| >= SupportResistanceWindow
    ensures r.Some? ==>
      (forall k :: |s| - SupportResistanceWindow <= k < |s| ==> r.value <= s[k].low) &&
      (exists k :: |s| - SupportResistanceWindow <= k < |s| && r.value == s[k].low)
  {
    if |s| < SupportResistanceWindow then None
    else Some(MinLow(s, |s| - SupportResistanceWindow))
  }

  /** Rolling 20-candle maximum of `high` at the last position; undefined
      while fewer than 20 candles exist. */
  function Resistance(s: seq<Candle>): (r: Option<real>)
    ensures r.Some? <==> |s| >= SupportResistanceWindow
    ensures r.Some? ==>
      (forall k :: |s| - SupportResistanceWindow <= k < |s| ==> s[k].high <= r.value) &&
      (exists k :: |s| - SupportResistanceWindow <= k < |s| && r.value == s[k].high)
  {
    if |s| < SupportResistanceWindow then None
    else Some(MaxHigh(s, |s| - SupportResistanceWindow))
  }

  /** When every candle respects low <= high, the support never lies above
      the resistance. */
  lemma {:induction false} SupportBelowResistance(s: seq<Candle>)
    requires |s| >= SupportResistanceWindow
    requires forall k :: 0 <= k < |s| ==> s[k].low <= s[k].high
    ensures Support(s).value <= Resistance(s).value
  {
    var lo := |s| - SupportResistanceWindow;
    var k :| lo <= k < |s| && Support(s).value == s[k].low;
    assert s[k].high <= Resistance(s).value;
  }
}
