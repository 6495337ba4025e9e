/** Sums and the sample variance of pandas' `Series.var()` (one delta degree of freedom). */
module Stats {
  import opened Floats

  /** The sum of a list, accumulated from the front. */
  function Sum(xs: seq<real>): real
    decreases |xs|
  {
    if xs == [] then 0.0 else Sum(xs[..|xs| - 1]) + xs[|xs| - 1]
  }

  /** The element-wise squares of a list. */
  function Squares(xs: seq<real>): (r: seq<real>)
    ensures |r| == |xs|
    ensures forall k :: 0 <= k < |r| ==> r[k] >= 0.0 && (r[k] == 0.0 <==> xs[k] == 0.0)
  {
    var r := seq(|xs|, k requires 0 <= k < |xs| => xs[k] * xs[k]);
    forall k | 0 <= k < |xs| ensures r[k] >= 0.0 && (r[k] == 0.0 <==> xs[k] == 0.0) {
      SquareZero(xs[k], r[k]);
    }
    r
  }

  /** A square is never negative, and zero only for zero. */
  lemma SquareZero(x: real, square: real)
    requires square == x * x
    ensures square >= 0.0
    ensures square == 0.0 <==> x == 0.0
  {
    if x > 0.0 {
      calc { square; == x * x; > 0.0; }
    } else if x < 0.0 {
      var y := -x;
      assert x * x == y * y;
      calc { square; == y * y; > 0.0; }
    } else {
      calc { square; == x * x; == 0.0 * 0.0; == 0.0; }
    }
  }

  function Mean(xs: seq<real>): real
    requires |xs| > 0
  {
    Sum(xs) / |xs| as real
  }

  /** Each value minus `m`. */
  function Deviations(xs: seq<real>, m: real): (r: seq<real>)
    ensures |r| == |xs|
    ensures forall k :: 0 <= k < |xs| ==> r[k] == xs[k] - m
  {
    seq(|xs|, k requires 0 <= k < |xs| => xs[k] - m)
  }

  /**
   * `Series.var()`: the sum of squared deviations from the mean divided by `n - 1`; NaN for a series
   * of fewer than two values.
   */
  function Variance(xs: seq<real>): (r: Float)
    ensures |xs| <= 1 <==> r.NaN?
    ensures |xs| >= 2 ==> NonNegative(r)
  {
    if |xs| <= 1 then NaN
    else
      var sq := Squares(Deviations(xs, Mean(xs)));
      SumNonNegative(sq);
      Fin(Sum(sq) / (|xs| - 1) as real)
  }

  /** A sum of non-negative terms is non-negative, and zero exactly when every term is. */
  lemma {:induction false} SumNonNegative(xs: seq<real>)
    requires forall k :: 0 <= k < |xs| ==> xs[k] >= 0.0
    ensures Sum(xs) >= 0.0
    ensures Sum(xs) == 0.0 <==> forall k :: 0 <= k < |xs| ==> xs[k] == 0.0
    decreases |xs|
  {
    if xs != [] {
      var init := xs[..|xs| - 1];
      assert forall k :: 0 <= k < |init| ==> init[k] == xs[k];
      SumNonNegative(init);
    }
  }

  /** The sum of a concatenation. */
  lemma {:induction false} SumAppend(xs: seq<real>, ys: seq<real>)
    ensures Sum(xs + ys) == Sum(xs) + Sum(ys)
    decreases |ys|
  {
    if ys == [] {
      assert xs + ys == xs;
    } else {
      var init := ys[..|ys| - 1];
      assert (xs + ys)[..|xs + ys| - 1] == xs + init;
      assert (xs + ys)[|xs + ys| - 1] == ys[|ys| - 1];
      SumAppend(xs, init);
    }
  }

  /** `n` copies of `c` sum to `n * c`. */
  lemma {:induction false} SumConstant(xs: seq<real>, c: real)
    requires forall k :: 0 <= k < |xs| ==> xs[k] == c
    ensures Sum(xs) == |xs| as real * c
    decreases |xs|
  {
    if xs != [] {
      var init := xs[..|xs| - 1];
      SumConstant(init, c);
    }
  }

  /** A series of two or more equal values has variance zero. */
  lemma ConstantVariance(xs: seq<real>, c: real)
    requires |xs| >= 2
    requires forall k :: 0 <= k < |xs| ==> xs[k] == c
    ensures Variance(xs) == Fin(0.0)
  {
    SumConstant(xs, c);
    assert Mean(xs) == c;
    var sq := Squares(Deviations(xs, Mean(xs)));
    SumNonNegative(sq);
  }
}
