/**
 * Averaging over reals: `sum(values) / len(values)`, used by the rule-based
 * summary, and the cross-comment averaging of `predict` (`np.array` of the
 * per-comment prediction rows and `np.mean(..., axis=0)`), which is the same
 * average taken column by column.
 */
module Aggregation {

  /** Sum of the values, adding them in order. */
  function Sum(values: seq<real>): real {
    if values == [] then 0.0 else Sum(values[..|values| - 1]) + values[|values| - 1]
  }

  /** `sum(values) / len(values)`: the value whose `len(values)` copies add up
      to the sum; a list of equal values averages to that value. */
  function Average(values: seq<real>): (r: real)
    requires |values| > 0
    ensures |values| as real * r == Sum(values)
    ensures (forall k :: 0 <= k < |values| ==> values[k] == values[0]) ==> r == values[0]
  {
    SumBounded(values, values[0], values[0]);
    Sum(values) / |values| as real
  }

  lemma {:induction false} SumBounded(values: seq<real>, lo: real, hi: real)
    ensures (forall k :: 0 <= k < |values| ==> lo <= values[k] <= hi) ==>
      |values| as real * lo <= Sum(values) <= |values| as real * hi
  {
    if values != [] && forall k :: 0 <= k < |values| ==> lo <= values[k] <= hi {
      var init := values[..|values| - 1];
      var n := |init| as real;
      var last := values[|values| - 1];
      assert forall k :: 0 <= k < |init| ==> init[k] == values[k];
      SumBounded(init, lo, hi);
      assert n * lo <= Sum(init) <= n * hi;
      assert Sum(values) == Sum(init) + last;
      assert lo <= last <= hi;
      assert |values| as real == n + 1.0;
      calc {
        |values| as real * lo;
        (n + 1.0) * lo;
        n * lo + lo;
      <=
        Sum(init) + last;
      }
      calc {
        Sum(init) + last;
      <=
        n * hi + hi;
        (n + 1.0) * hi;
        |values| as real * hi;
      }
    }
  }

  lemma DivisionBounds(a: real, n: real, lo: real, hi: real)
    requires n > 0.0 && n * lo <= a <= n * hi
    ensures lo <= a / n <= hi
  {
  }

  /** The average lies between any lower and upper bound of the values, hence
      between the least and the greatest of them. */
  lemma AverageBetween(values: seq<real>, lo: real, hi: real)
    requires |values| > 0
    requires forall k :: 0 <= k < |values| ==> lo <= values[k] <= hi
    ensures lo <= Average(values) <= hi
  {
    SumBounded(values, lo, hi);
    DivisionBounds(Sum(values), |values| as real, lo, hi);
  }

  /** `np.array(rows)` is a two-dimensional array with at least one row and
      at least five columns, so that `avg_prediction[i]` exists for every trait. */
  predicate WellShaped(rows: seq<seq<real>>) {
    && |rows| > 0
    && |rows[0]| >= 5
    && forall k :: 0 <= k < |rows| ==> |rows[k]| == |rows[0]|
  }

  predicate HasColumn(rows: seq<seq<real>>, j: nat) {
    forall k :: 0 <= k < |rows| ==> j < |rows[k]|
  }

  /** Column `j`: the `j`-th entry of every row, in row order. */
  function Column(rows: seq<seq<real>>, j: nat): (c: seq<real>)
    requires HasColumn(rows, j)
    ensures |c| == |rows|
    ensures forall k :: 0 <= k < |rows| ==> c[k] == rows[k][j]
  {
    seq(|rows|, k requires 0 <= k < |rows| => rows[k][j])
  }

  /** `np.mean(rows, axis=0)[j]`: the average of column `j`. */
  function Mean(rows: seq<seq<real>>, j: nat): (r: real)
    requires |rows| > 0 && HasColumn(rows, j)
    ensures |rows| as real * r == Sum(Column(rows, j))
  {
    Average(Column(rows, j))
  }

  /** The mean lies between any lower and upper bound of the column, hence
      between its least and greatest entry. */
  lemma MeanBetween(rows: seq<seq<real>>, j: nat, lo: real, hi: real)
    requires |rows| > 0 && HasColumn(rows, j)
    requires forall k :: 0 <= k < |rows| ==> lo <= rows[k][j] <= hi
    ensures lo <= Mean(rows, j) <= hi
  {
    AverageBetween(Column(rows, j), lo, hi);
  }

  /** The mean of a single row is that row. */
  lemma MeanOfOne(rows: seq<seq<real>>, j: nat)
    requires |rows| == 1 && HasColumn(rows, j)
    ensures Mean(rows, j) == rows[0][j]
  {
    assert Column(rows, j)[0] == rows[0][j];
  }

  /** N identical rows have that row as their mean. */
  lemma MeanOfIdentical(rows: seq<seq<real>>, j: nat, v: seq<real>)
    requires |rows| > 0 && j < |v|
    requires forall k :: 0 <= k < |rows| ==> rows[k] == v
    ensures Mean(rows, j) == v[j]
  {
    MeanBetween(rows, j, v[j], v[j]);
  }
}
