/**
 * The quantile engine `calculate_quantile`: linear interpolation between the
 * two order statistics around rank `(n - 1) * p / 100`, with shortcuts for a
 * single value, all-equal ends, and the percentiles 0 and 100.
 *
 * Its partner is `LinearQuantile`, the textbook definition of the "linear"
 * quantile (type 7 of Hyndman and Fan, numpy's default). For ascending input
 * the two agree at every percentile.
 */
module QuantileEngine {
  import opened Sorting

  function Max(a: int, b: int): int { if a < b then b else a }
  function Min(a: int, b: int): int { if a < b then a else b }

  /** `calculate_quantile(sorted_list, percentile)`: the quantile and the element count. */
  function CalculateQuantile(sorted: seq<real>, percentile: real): (r: (real, nat))
    requires |sorted| > 0
    requires 0.0 <= percentile <= 100.0
    ensures r.1 == |sorted|
    ensures |sorted| == 1 || sorted[0] == sorted[|sorted| - 1] || percentile == 0.0 ==> r.0 == sorted[0]
    ensures percentile == 100.0 ==> r.0 == sorted[|sorted| - 1]
    ensures Ascending(sorted) ==> sorted[0] <= r.0 <= sorted[|sorted| - 1]
  {
    var n := |sorted|;
    if n == 1 || sorted[0] == sorted[n - 1] || percentile == 0.0 then
      (sorted[0], n)
    else if percentile == 100.0 then
      (sorted[n - 1], n)
    else
      var rank := Rank(n, percentile);
      RankInRange(n, percentile);
      var left := Max(0, rank.Floor);
      var right := Min(n - 1, left + 1);
      var weight := rank - rank.Floor as real;
      var q := Lerp(sorted[left], sorted[right], weight);
      assert Ascending(sorted) ==> sorted[0] <= q <= sorted[n - 1] by {
        if Ascending(sorted) {
          assert sorted[0] <= sorted[left] <= sorted[right] <= sorted[n - 1];
          LerpBetween(sorted[left], sorted[right], weight);
        }
      }
      (q, n)
  }

  /** `(n - 1) * percentile / 100`, the fractional position of the quantile. */
  function Rank(n: nat, percentile: real): real {
    (n - 1) as real * percentile / 100.0
  }

  /** `a * (1 - w) + b * w`, the interpolation step of the engine. */
  function Lerp(a: real, b: real, w: real): real {
    a * (1.0 - w) + b * w
  }

  /** The rank lies in [0, n - 1], so both interpolation indices are in range;
      it reaches n - 1 only at percentile 100. */
  lemma RankInRange(n: nat, percentile: real)
    requires n > 0 && 0.0 <= percentile <= 100.0
    ensures var rank := Rank(n, percentile);
      && 0.0 <= rank <= (n - 1) as real
      && 0 <= rank.Floor <= n - 1
      && (n > 1 && percentile < 100.0 ==> rank < (n - 1) as real)
  {
    var m := (n - 1) as real;
    MulNonneg(m, percentile);
    MulLe(m, percentile, 100.0);
    if n > 1 && percentile < 100.0 {
      MulLt(m, percentile, 100.0);
    }
  }

  /** A larger percentile has a rank at least as large. */
  lemma RankMonotone(n: nat, p1: real, p2: real)
    requires n > 0 && p1 <= p2
    ensures Rank(n, p1) <= Rank(n, p2)
  {
    MulLe((n - 1) as real, p1, p2);
  }

  lemma MulLt(a: real, b: real, c: real)
    requires 0.0 < a && b < c
    ensures a * b < a * c
  {
    assert a * (c - b) == a * c - a * b;
  }

  lemma MulNonneg(a: real, b: real)
    requires 0.0 <= a && 0.0 <= b
    ensures 0.0 <= a * b
  {
  }

  lemma MulLe(a: real, b: real, c: real)
    requires 0.0 <= a && b <= c
    ensures a * b <= a * c
  {
    MulNonneg(a, c - b);
    assert a * (c - b) == a * c - a * b;
  }

  /** The interpolation step written from the lower point: `a + w * (b - a)`. */
  function Step(a: real, b: real, w: real): real {
    a + w * (b - a)
  }

  lemma LerpFromLower(a: real, b: real, w: real)
    ensures Lerp(a, b, w) == Step(a, b, w)
  {
  }

  /** An interpolation with weight in [0, 1] lies between its two points. */
  lemma LerpBetween(a: real, b: real, w: real)
    requires a <= b && 0.0 <= w <= 1.0
    ensures a <= Lerp(a, b, w) <= b
  {
    LerpFromLower(a, b, w);
    MulNonneg(w, b - a);
    MulLe(b - a, w, 1.0);
    assert (b - a) * w == w * (b - a);
  }

  /** The "linear" quantile defined from its rank alone: with h = (n - 1) p / 100,
      j = floor(h) and g = h - j, it is x[j] + g (x[j + 1] - x[j]), and x[n - 1] at the top. */
  function LinearQuantile(x: seq<real>, percentile: real): (q: real)
    requires |x| > 0
    requires 0.0 <= percentile <= 100.0
  {
    var h := Rank(|x|, percentile);
    RankInRange(|x|, percentile);
    var j := h.Floor;
    if j + 1 < |x| then Step(x[j], x[j + 1], h - j as real) else x[|x| - 1]
  }

  /** On ascending input the engine, shortcuts included, computes the linear quantile. */
  lemma CalculateQuantileIsLinear(x: seq<real>, percentile: real)
    requires |x| > 0 && Ascending(x)
    requires 0.0 <= percentile <= 100.0
    ensures CalculateQuantile(x, percentile).0 == LinearQuantile(x, percentile)
  {
    var n := |x|;
    var h := Rank(n, percentile);
    RankInRange(n, percentile);
    var j := h.Floor;
    var g := h - j as real;
    if n == 1 || x[0] == x[n - 1] {
      // every value equals x[0], so both sides are x[0]
      assert x[0] <= x[j] <= x[n - 1];
      if j + 1 < n {
        assert x[0] <= x[j + 1] <= x[n - 1];
        assert x[j + 1] == x[j];
        StepSame(x[j], g);
      }
    } else if percentile == 0.0 {
      assert h == 0.0;
    } else if percentile == 100.0 {
      assert h == (n - 1) as real;
    } else {
      assert j + 1 < n;
      LerpFromLower(x[j], x[j + 1], g);
    }
  }

  lemma StepSame(a: real, g: real)
    ensures Step(a, a, g) == a
  {
  }

  lemma StepMonotone(a: real, b: real, g1: real, g2: real)
    requires a <= b && g1 <= g2
    ensures Step(a, b, g1) <= Step(a, b, g2)
  {
    MulLe(b - a, g1, g2);
    assert (b - a) * g1 == g1 * (b - a);
    assert (b - a) * g2 == g2 * (b - a);
  }

  /** With weight in [0, 1] the linear step lies between its lower and upper points. */
  lemma StepBelowUpper(a: real, b: real, g: real)
    requires a <= b && 0.0 <= g <= 1.0
    ensures a <= Step(a, b, g) <= b
  {
    LerpFromLower(a, b, g);
    LerpBetween(a, b, g);
  }

  /** On ascending input the linear quantile never decreases as the percentile grows. */
  lemma LinearQuantileMonotone(x: seq<real>, p1: real, p2: real)
    requires |x| > 0 && Ascending(x)
    requires 0.0 <= p1 <= p2 <= 100.0
    ensures LinearQuantile(x, p1) <= LinearQuantile(x, p2)
  {
    var n := |x|;
    RankInRange(n, p1);
    RankInRange(n, p2);
    RankMonotone(n, p1, p2);
    var h1 := Rank(n, p1);
    var h2 := Rank(n, p2);
    var j1, j2 := h1.Floor, h2.Floor;
    var g1, g2 := h1 - j1 as real, h2 - j2 as real;
    assert j1 <= j2;
    if j1 == j2 {
      if j1 + 1 < n {
        StepMonotone(x[j1], x[j1 + 1], g1, g2);
      }
    } else {
      // the lower quantile is at most x[j1 + 1] <= x[j2], which is at most the upper one
      assert j1 + 1 < n;
      StepBelowUpper(x[j1], x[j1 + 1], g1);
      assert x[j1 + 1] <= x[j2];
      if j2 + 1 < n {
        StepBelowUpper(x[j2], x[j2 + 1], g2);
      }
    }
  }

  /** A pool whose values are all `c` has quantile `c` at every percentile. */
  lemma ConstantPoolQuantile(x: seq<real>, c: real, percentile: real)
    requires |x| > 0 && forall i :: 0 <= i < |x| ==> x[i] == c
    requires 0.0 <= percentile <= 100.0
    ensures CalculateQuantile(x, percentile).0 == c
  {
  }

  /** The pool [3, 1] at percentile 90: sorted to [1, 3], then 1 + 0.9 * (3 - 1). */
  lemma TwoValueExample()
    ensures SortAscending([3.0, 1.0]) == [1.0, 3.0]
    ensures CalculateQuantile([1.0, 3.0], 90.0) == (2.8, 2)
  {
    assert [3.0, 1.0][1..] == [1.0];
    var rank := Rank(2, 90.0);
    assert rank == 0.9;
    assert rank.Floor == 0;
  }
}
