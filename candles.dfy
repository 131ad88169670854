/** Candles: the value types shared by the analytics and the row cleaning,
    and the "last n rows" / minimum / maximum building blocks that the
    price-level answers are made of. Prices are exact reals; the source's
    floating-point behaviour is not modelled. */
module Candles {

  datatype Option<T> = None | Some(value: T)

  /** One OHLC bar of the feed, as a row of the cleaned frame. `epoch` is the
      bar's start time in seconds, kept so that rows stay identifiable. */
  datatype Candle = Candle(epoch: int, open: real, high: real, low: real, close: real)

  /** The last `n` candles of `s`, or all of them when there are fewer
      (a frame's `tail(n)`). */
  function Tail(s: seq<Candle>, n: nat): (r: seq<Candle>)
    ensures |r| == |s| - TailStart(|s|, n)
    ensures forall k :: 0 <= k < |r| ==> r[k] == s[TailStart(|s|, n) + k]
  {
    s[TailStart(|s|, n)..]
  }

  /** Index of the first of the last `n` candles of a run of `len` candles:
      where a frame's `tail(n)` starts. */
  function TailStart(len: nat, n: nat): (lo: nat)
    ensures lo <= len && len - lo == (if n < len then n else len)
  {
    if n < len then len - n else 0
  }

  /** The lowest `low` among the candles from position `lo` on: a lower bound
      of every one of those lows that is itself one of them. */
  function MinLow(s: seq<Candle>, lo: nat): (r: real)
    requires lo < |s|
    ensures forall k :: lo <= k < |s| ==> r <= s[k].low
    ensures exists k :: lo <= k < |s| && r == s[k].low
    decreases |s| - lo
  {
    if lo == |s| - 1 then s[lo].low
    else
      var m := MinLow(s, lo + 1);
      if s[lo].low <= m then s[lo].low else m
  }

  /** The highest `high` among the candles from position `lo` on: an upper
      bound of every one of those highs that is itself one of them. */
  function MaxHigh(s: seq<Candle>, lo: nat): (r: real)
    requires lo < |s|
    ensures forall k :: lo <= k < |s| ==> s[k].high <= r
    ensures exists k :: lo <= k < |s| && r == s[k].high
    decreases |s| - lo
  {
    if lo == |s| - 1 then s[lo].high
    else
      var m := MaxHigh(s, lo + 1);
      if s[lo].high >= m then s[lo].high else m
  }

  /** The `high` column of a run of candles. */
  function Highs(s: seq<Candle>): (r: seq<real>)
    ensures |r| == |s| && forall k :: 0 <= k < |s| ==> r[k] == s[k].high
  {
    seq(|s|, k requires 0 <= k < |s| => s[k].high)
  }

  /** The `low` column of a run of candles. */
  function Lows(s: seq<Candle>): (r: seq<real>)
    ensures |r| == |s| && forall k :: 0 <= k < |s| ==> r[k] == s[k].low
  {
    seq(|s|, k requires 0 <= k < |s| => s[k].low)
  }
}
