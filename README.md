# Candle analytics of the EUR/USD signal dashboard, in Dafny

The dashboard script fetches one-minute EUR/USD candles, cleans them, and
computes a handful of price-level answers from the time-ordered run of
candles. This project models those answers and the cleaning step, and proves
what each one promises:

- **Row cleaning** (`Cleaning`): rows whose open, high, low or close is
  missing or did not parse are dropped. The other rows become candles, in
  their original order.
- **Candle strength** (`Analytics.CandleStrength`): `(close - open) / open`
  of the last candle.
- **Gap** (`Analytics.Gap`): the last candle's open minus the previous
  candle's close. It is absent with a single candle.
- **Trend** (`Analytics.DetectTrend`): the three-candle higher-high /
  higher-low rule, giving `Unknown`, `Uptrend`, `Downtrend` or `Ranging`.
- **Support / resistance** (`Analytics.Support`, `Analytics.Resistance`):
  the minimum low and the maximum high of the last 20 candles. They are
  undefined with fewer than 20 candles.
- **Best (pullback) price** (`Analytics.BestPrice`): the minimum low of the
  last three candles in an uptrend, their maximum high in a downtrend, and
  absent otherwise.
- **One run** (`Snapshot.Analyze`): clean, stop when nothing is left, and
  otherwise compute every answer from the same candles.

Prices are exact `real`s. Values the script may fail to produce are
`Option`s. The modules are `Candles` (shared types, tail, min/max),
`Analytics`, `Cleaning` and `Snapshot`.

Facts about the script that the model keeps:
- The gap is the last candle's open minus the previous candle's close. On a
  flat run it is `0.0`, a value, not absent (`Snapshot.FlatFeed`).
- Cleaning keeps the rows' order and does not sort or deduplicate them.

## Model

| member | source | states |
|---|---|---|
| `Candles.Tail` | app.py:95-96 | `tail(n)`: exactly the last `n` candles (all of them when there are fewer), in order |
| `Candles.MinLow` | app.py:114 | the minimum low of a trailing run is ≤ every low in the run and equals one of them |
| `Candles.MaxHigh` | app.py:115 | the maximum high of a trailing run is ≥ every high in the run and equals one of them |
| `Cleaning.DropIncomplete` | app.py:44-46 | the output is never longer than the input |
| `Cleaning.KeptIndices` | app.py:46 | the output is a subsequence of the input: its candles come from strictly increasing input positions, each of them a complete row, and every complete row's position is among them |
| `Cleaning.DropIncompleteIsExactFilter` | app.py:46 | a candle is in the output exactly when it comes from some complete input row |
| `Cleaning.DropIncompleteEmpty` | app.py:46 | cleaning leaves nothing exactly when no row is complete |
| `Cleaning.DropIncompleteDistributes` | app.py:46 | the filter works row by row: cleaning `a + b` gives cleaned `a` followed by cleaned `b` |
| `Cleaning.DropIncompleteKeepsCompleteFeed` | app.py:46 | a feed whose rows are all complete is kept whole, row for row |
| `Analytics.CandleStrength` | app.py:77-78 | the strength times the last open is the last candle's body, close minus open |
| `Analytics.StrengthSign` | app.py:77-78 | with a positive open, the strength is zero iff close = open, positive iff close > open, and negative iff close < open |
| `Analytics.Gap` | app.py:83-88 | the gap exists iff there are at least two candles; the last open equals the previous close plus the gap |
| `Analytics.GapOfAppended` | app.py:85 | appending a candle gives its open minus the close of the candle before it, whatever history precedes |
| `Analytics.DetectTrend` | app.py:92-94 | `Unknown` exactly when there are fewer than three candles |
| `Analytics.TrendClassification` | app.py:95-102 | with three or more candles: `Uptrend` iff the last three highs and lows both rise strictly, `Downtrend` iff both fall strictly, `Ranging` iff neither holds |
| `Analytics.RisingOrFallingExclusive` | app.py:97-100 | no run of two or more values both rises and falls, so the uptrend and downtrend conditions never both hold |
| `Analytics.TieGivesRanging` | app.py:97-102 | a tie between two of the last three highs, or two of the last three lows, gives `Ranging` |
| `Analytics.TrendIgnoresHistory` | app.py:95-96 | with three or more candles, putting any candles in front does not change the trend |
| `Analytics.BestPrice` | app.py:122-129 | present iff the trend is up or down; in an uptrend it is ≤ each low of the last three candles and equals one of them; in a downtrend it is ≥ each high of the last three candles and equals one of them |
| `Analytics.BestPriceFollowsTrend` | app.py:97-99 | combined with the detected trend, the best price is the third-from-last candle's low in an uptrend, its high in a downtrend, and absent otherwise |
| `Analytics.UptrendBestPrice` | app.py:124-125 | in a detected uptrend the best price is exactly the third-from-last candle's low |
| `Analytics.DowntrendBestPrice` | app.py:126-127 | in a detected downtrend the best price is exactly the third-from-last candle's high |
| `Analytics.Support` | app.py:114 | defined iff there are at least 20 candles; then it is ≤ every low of the last 20 and equals one of them |
| `Analytics.Resistance` | app.py:115 | defined iff there are at least 20 candles; then it is ≥ every high of the last 20 and equals one of them |
| `Analytics.SupportBelowResistance` | app.py:114-115 | when every candle has low ≤ high, the support is never above the resistance |
| `Snapshot.Analyze` | app.py:44-135 | the run stops exactly when no row is complete (app.py:57-58); otherwise every field is computed from the same cleaned candles: the trend, gap, support, resistance and the best price for that trend are those of the cleaned run, and the strength is present exactly when the last open is non-zero and then is that candle's strength |
| `Snapshot.SnapshotBestPrice` | app.py:131-135 | over a whole run, the shown pullback price is the third-from-last low in an uptrend, that candle's high in a downtrend, and absent when ranging or unknown |
| `Snapshot.FlatFeed` | app.py:75-135 | at least 20 rows all priced `p > 0`: strength 0, gap 0, trend `Ranging`, support = resistance = `p`, no pullback price |

## Left out

- Fetching candles over the WebSocket, and building and parsing the JSON request and response (app.py:30-54). This is network I/O. The model starts from the rows.
- Numeric coercion with `pd.to_numeric` and the epoch-to-time conversion (app.py:42, 45, 47). These are library calls. A field that fails to parse is `None` in `Cleaning.RawRow`, and the epoch is kept as an integer.
- The RSI column computed by the `ta` library (app.py:63-71). It wraps a library that is not part of this model and relies on floating-point smoothing.
- Page setup, success/warning/error messages, metric widgets, five-decimal formatting and the Plotly chart (app.py:11-12, 50-60, 106, 139-170). These are presentation.
- The `try/except` wrappers around trend and best price (app.py:104-109, 131-135). They cannot fire on a non-empty run of candles, so both functions are total.
- The `candle_strength` column over every row (app.py:77). Only its last value is used, so only that value is modelled.
- Analytics.Support: with fewer than 20 candles pandas gives NaN, which the script shows as "nan" because it tests `is not None`. The model gives `None`.
- Analytics.Resistance: likewise NaN in the script, `None` in the model, with fewer than 20 candles.
- Analytics.CandleStrength: requires a non-zero last open, because division of reals needs it. The script's float division yields inf or NaN there. The sign lemma assumes a positive open.
- Snapshot.Analyze: reports the strength as absent when the last open is zero, where the script would show a non-finite value.
- All floating-point rounding. Prices are exact reals.
