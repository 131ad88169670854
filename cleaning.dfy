/** Cleaning: the step that turns the feed's rows into candles by dropping
    every row whose open, high, low or close is missing or did not parse
    (app.py:44-46). A field that failed numeric coercion is `None`. */
module Cleaning {
  import opened Candles

  datatype RawRow = RawRow(epoch: int, open: Option<real>, high: Option<real>,
                           low: Option<real>, close: Option<real>)

  /** All four price fields are present. */
  predicate Complete(row: RawRow) {
    row.open.Some? && row.high.Some? && row.low.Some? && row.close.Some?
  }

  function ToCandle(row: RawRow): Candle
    requires Complete(row)
  {
    Candle(row.epoch, row.open.value, row.high.value, row.low.value, row.close.value)
  }

  /** The rows that have all four prices, as candles, in their original order. */
  function DropIncomplete(rows: seq<RawRow>): (r: seq<Candle>)
    ensures |r| <= |rows|
  {
    if rows == [] then []
    else
      var n := |rows| - 1;
      DropIncomplete(rows[..n]) + (if Complete(rows[n]) then [ToCandle(rows[n])] else [])
  }

  /** Positions of the rows that survive, in increasing order: the witness that
      the output is a subsequence of the input holding exactly the complete rows. */
  function KeptIndices(rows: seq<RawRow>): (idx: seq<nat>)
    ensures |idx| == |DropIncomplete(rows)|
    ensures forall k :: 0 <= k < |idx| ==>
      idx[k] < |rows| && Complete(rows[idx[k]]) && DropIncomplete(rows)[k] == ToCandle(rows[idx[k]])
    ensures forall k, l :: 0 <= k < l < |idx| ==> idx[k] < idx[l]
    ensures forall i :: 0 <= i < |rows| && Complete(rows[i]) ==> i in idx
  {
    if rows == [] then []
    else
      var n := |rows| - 1;
      var init := rows[..n];
      var front := KeptIndices(init);
      var idx := front + (if Complete(rows[n]) then [n] else []);
      assert forall i :: 0 <= i < n ==> init[i] == rows[i];
      assert forall k :: 0 <= k < |front| ==>
        idx[k] == front[k] && DropIncomplete(rows)[k] == DropIncomplete(init)[k];
      idx
  }

  /** Every candle that comes out was a complete row, and every complete row
      comes out (order is stated by `KeptIndices`). */
  lemma {:induction false} DropIncompleteIsExactFilter(rows: seq<RawRow>)
    ensures forall c :: c in DropIncomplete(rows) <==>
      exists i :: 0 <= i < |rows| && Complete(rows[i]) && c == ToCandle(rows[i])
  {
    var idx := KeptIndices(rows);
    var r := DropIncomplete(rows);
    forall c ensures c in r <==> exists i :: 0 <= i < |rows| && Complete(rows[i]) && c == ToCandle(rows[i]) {
      if c in r {
        var k :| 0 <= k < |r| && r[k] == c;
        assert Complete(rows[idx[k]]) && c == ToCandle(rows[idx[k]]);
      }
      if exists i :: 0 <= i < |rows| && Complete(rows[i]) && c == ToCandle(rows[i]) {
        var i :| 0 <= i < |rows| && Complete(rows[i]) && c == ToCandle(rows[i]);
        var k :| 0 <= k < |idx| && idx[k] == i;
        assert r[k] == c;
      }
    }
  }

  /** Nothing comes out exactly when no row is complete. */
  lemma DropIncompleteEmpty(rows: seq<RawRow>)
    ensures DropIncomplete(rows) == [] <==> forall i :: 0 <= i < |rows| ==> !Complete(rows[i])
  {
    var idx := KeptIndices(rows);
    if idx != [] {
      assert Complete(rows[idx[0]]);
    }
  }

  /** Cleaning works row by row: cleaning two batches one after the other is
      cleaning their concatenation. */
  lemma {:induction false} DropIncompleteDistributes(a: seq<RawRow>, b: seq<RawRow>)
    ensures DropIncomplete(a + b) == DropIncomplete(a) + DropIncomplete(b)
    decreases |b|
  {
    if b != [] {
      var n := |b| - 1;
      assert (a + b)[..|a + b| - 1] == a + b[..n];
      DropIncompleteDistributes(a, b[..n]);
    } else {
      assert a + b == a;
    }
  }

  /** A feed whose rows are all complete loses nothing. */
  lemma {:induction false} DropIncompleteKeepsCompleteFeed(rows: seq<RawRow>)
    requires forall i :: 0 <= i < |rows| ==> Complete(rows[i])
    ensures |DropIncomplete(rows)| == |rows|
    ensures forall i :: 0 <= i < |rows| ==> DropIncomplete(rows)[i] == ToCandle(rows[i])
    decreases |rows|
  {
    if rows != [] {
      var n := |rows| - 1;
      DropIncompleteKeepsCompleteFeed(rows[..n]);
    }
  }
}
