/** The `Avg` aggregate over a decimal column with two fractional digits. */
module Aggregates {
  import opened Results

  function Sum(xs: seq<int>): int
    decreases |xs|
  {
    if xs == [] then 0 else Sum(xs[..|xs| - 1]) + xs[|xs| - 1]
  }

  /** The mean of the values, as an exact number in the column's units (the values are
      hundredths); absent when there are no values, as SQL's AVG over no rows. */
  function Mean(xs: seq<int>): (r: Option<real>)
    ensures r.None? <==> xs == []
  {
    if xs == [] then None else Some((Sum(xs) as real) / (|xs| as real) / 100.0)
  }

  /** The largest value of the column, in hundredths (5.00). */
  const TOP: int := 500

  /** A sum of values within [0, TOP] lies within [0, TOP * count]. */
  lemma {:induction false} SumBounds(xs: seq<int>)
    requires forall i :: 0 <= i < |xs| ==> 0 <= xs[i] <= TOP
    ensures 0 <= Sum(xs) <= TOP * |xs|
    decreases |xs|
  {
    if xs != [] {
      SumBounds(xs[..|xs| - 1]);
    }
  }

  /** A quotient by a positive number keeps bounds that hold after multiplying by it. */
  lemma QuotientBounds(s: real, n: real)
    requires n > 0.0 && 0.0 <= s <= (TOP as real) * n
    ensures 0.0 <= s / n <= TOP as real
  {
    assert (TOP as real) * n / n == TOP as real;
  }

  /** A mean of values within [0, TOP] hundredths lies within [0.0, 5.0]. */
  lemma MeanBounds(xs: seq<int>)
    requires xs != []
    requires forall i :: 0 <= i < |xs| ==> 0 <= xs[i] <= TOP
    ensures 0.0 <= Mean(xs).value <= 5.0
  {
    SumBounds(xs);
    QuotientBounds(Sum(xs) as real, |xs| as real);
  }
}
