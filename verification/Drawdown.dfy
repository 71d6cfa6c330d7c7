/** The largest relative fall of an equity curve. */
module Drawdown {

  /** The relative fall from point `i` to a later point `j`. */
  function Fall(curve: seq<real>, i: int, j: int): real
    requires 0 <= i <= j < |curve| && curve[i] > 0.0
  {
    (curve[i] - curve[j]) / curve[i]
  }

  /** `d` bounds the fall of every pair of points, and is zero or the fall of some pair. */
  ghost predicate IsWorstFall(curve: seq<real>, d: real) {
    && d >= 0.0
    && (forall i, j :: 0 <= i <= j < |curve| && curve[i] > 0.0 ==> Fall(curve, i, j) <= d)
    && (d == 0.0 || exists i, j :: 0 <= i <= j < |curve| && curve[i] > 0.0 && Fall(curve, i, j) == d)
  }

  /** Below this value a peak is as good as none. */
  const NO_PEAK := -1000000000000000000.0

  lemma SignOfFactor(h: real, z: real)
    requires h > 0.0
    ensures h * z <= 0.0 <==> z <= 0.0
    ensures h * z >= 0.0 <==> z >= 0.0
  {
  }

  /** Falling from a higher peak is falling further. */
  lemma HigherPeakFallsFurther(low: real, high: real, v: real)
    requires 0.0 < low <= high && v >= 0.0
    ensures (low - v) / low <= (high - v) / high <= 1.0
  {
    var x, y := 1.0 - (low - v) / low, 1.0 - (high - v) / high;
    assert low * x == v && high * y == v;
    SignOfFactor(low, x);
    SignOfFactor(high, y);
    SignOfFactor(high, y - x);
    assert high * (y - x) == (low - high) * x;
    SignOfFactor(x + 1.0, low - high);
    assert (low - high) * x <= 0.0;
  }

  /** One pass with a running peak. */
  method MaxDrawdown(curve: seq<real>) returns (d: real)
    requires forall i :: 0 <= i < |curve| ==> curve[i] >= 0.0
    ensures IsWorstFall(curve, d) && d <= 1.0
  {
    var peak := NO_PEAK;
    d := 0.0;
    var n := 0;
    while n < |curve|
      invariant 0 <= n <= |curve| && 0.0 <= d <= 1.0
      invariant n == 0 ==> peak == NO_PEAK && d == 0.0
      invariant n > 0 ==> exists i :: 0 <= i < n && curve[i] == peak
      invariant forall i :: 0 <= i < n ==> curve[i] <= peak
      invariant forall i, j :: 0 <= i <= j < n && curve[i] > 0.0 ==> Fall(curve, i, j) <= d
      invariant d == 0.0 || exists i, j :: 0 <= i <= j < n && curve[i] > 0.0 && Fall(curve, i, j) == d
    {
      var value := curve[n];
      ghost var top := n;
      if n > 0 && value <= peak {
        top :| 0 <= top < n && curve[top] == peak;
      }
      peak := if peak < value then value else peak;
      assert curve[top] == peak;
      forall i | 0 <= i <= n && curve[i] > 0.0
        ensures peak > 0.0 && Fall(curve, i, n) <= (peak - value) / peak <= 1.0
      {
        HigherPeakFallsFurther(curve[i], peak, value);
      }
      if peak > 0.0 {
        var fall := (peak - value) / peak;
        assert Fall(curve, top, n) == fall;
        d := if d < fall then fall else d;
      }
      n := n + 1;
    }
  }
}
