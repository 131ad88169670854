/** Snapshot: one analysis run of the script, from the feed's rows to the
    values the dashboard shows (app.py:44-135). The run stops when no complete
    row survives cleaning (app.py:57-58); otherwise every answer is computed
    from the same cleaned candles. */
module Snapshot {
  import opened Candles
  import opened Analytics
  import opened Cleaning

  /** The market snapshot; an absent field is shown as "N/A". */
  datatype MarketSnapshot = MarketSnapshot(
    strength: Option<real>,
    gap: Option<real>,
    trend: Trend,
    support: Option<real>,
    resistance: Option<real>,
    bestPrice: Option<real>)

  /** Clean the rows, stop on an empty result, else compute every answer.
      The strength is absent when the last open is zero, where the source's
      float division yields a non-finite value. */
  function Analyze(rows: seq<RawRow>): (r: Option<MarketSnapshot>)
    ensures r.None? <==> forall i :: 0 <= i < |rows| ==> !Complete(rows[i])
    ensures r.Some? ==>
      var s := DropIncomplete(rows);
      && |s| > 0
      && r.value.trend == DetectTrend(s)
      && (r.value.strength.Some? <==> s[|s| - 1].open != 0.0)
      && (s[|s| - 1].open != 0.0 ==> r.value.strength == Some(CandleStrength(s)))
      && r.value.gap == Gap(s)
      && r.value.support == Support(s)
      && r.value.resistance == Resistance(s)
      && r.value.bestPrice == BestPrice(s, DetectTrend(s))
  {
    var s := DropIncomplete(rows);
    DropIncompleteEmpty(rows);
    if s == [] then None
    else
      var last := s[|s| - 1];
      var trend := DetectTrend(s);
      Some(MarketSnapshot(
        if last.open == 0.0 then None else Some(CandleStrength(s)),
        Gap(s),
        trend,
        Support(s),
        Resistance(s),
        BestPrice(s, trend)))
  }

  /** Over a whole run, the pullback price shown is the third-from-last
      candle's low in an uptrend, its high in a downtrend, and "N/A" otherwise. */
  lemma SnapshotBestPrice(rows: seq<RawRow>)
    requires Analyze(rows).Some?
    ensures var snap, s := Analyze(rows).value, DropIncomplete(rows);
      && (snap.trend == Uptrend ==> snap.bestPrice == Some(s[|s| - 3].low))
      && (snap.trend == Downtrend ==> snap.bestPrice == Some(s[|s| - 3].high))
      && (snap.trend in {Ranging, Unknown} ==> snap.bestPrice.None?)
  {
    BestPriceFollowsTrend(DropIncomplete(rows));
  }

  /** A flat feed of at least 20 complete rows, every price equal to the same
      positive `p`: zero strength, zero gap (a value, not "N/A"), ranging
      trend, support and resistance both `p`, and no pullback price. */
  lemma FlatFeed(rows: seq<RawRow>, p: real)
    requires |rows| >= SupportResistanceWindow && p > 0.0
    requires forall i :: 0 <= i < |rows| ==>
      rows[i].open == Some(p) && rows[i].high == Some(p) && rows[i].low == Some(p) && rows[i].close == Some(p)
    ensures Analyze(rows) == Some(MarketSnapshot(Some(0.0), Some(0.0), Ranging, Some(p), Some(p), None))
  {
    DropIncompleteKeepsCompleteFeed(rows);
    var s := DropIncomplete(rows);
    var n := |s|;
    assert forall k :: 0 <= k < n ==> s[k].open == p && s[k].high == p && s[k].low == p && s[k].close == p;
    TieGivesRanging(s, n - 2, n - 1);
    StrengthSign(s);
  }
}
