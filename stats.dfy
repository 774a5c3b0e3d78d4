/**
 * The statistics the outlier rules rely on, defined exactly over reals:
 * numpy's `mean`, population `std` (ddof = 0) and `quantile` with its default
 * "linear" method, plus Python's built-in `round` (half to even) of an
 * integer ratio. Reals in Dafny are exact rationals, so `std` is never taken:
 * the standard-deviation test is stated on the variance instead.
 */
module Stats {
  import opened Common
  import StableSort

  /** np.mean of a non-empty list. */
  function Mean(s: seq<int>): real
    requires |s| > 0
  {
    Sum(s) as real / |s| as real
  }

  /** Sum of squared deviations from m. */
  function SquaredDeviations(s: seq<int>, m: real): (r: real)
    ensures r >= 0.0
  {
    if |s| == 0 then 0.0
    else
      var d := s[|s| - 1] as real - m;
      SquaredDeviations(s[..|s| - 1], m) + d * d
  }

  /** Population variance, the square of np.std with its default ddof = 0. */
  function Variance(s: seq<int>): (v: real)
    requires |s| > 0
    ensures v >= 0.0
  {
    SquaredDeviations(s, Mean(s)) / |s| as real
  }

  /**
   * `place > mean + alpha * std` with std = sqrt(Variance(s)), written
   * without the square root. An empty list has a NaN mean in numpy, and a
   * comparison with NaN is false.
   */
  predicate AboveStdFence(place: int, s: seq<int>, alpha: real)
  {
    if |s| == 0 then false
    else
      var d := place as real - Mean(s);
      var scaled := alpha * alpha * Variance(s);
      if alpha >= 0.0 then d > 0.0 && d * d > scaled
      else d > 0.0 || (d == 0.0 && scaled > 0.0) || (d < 0.0 && d * d < scaled)
  }

  lemma MulPositive(x: real, y: real)
    requires x > 0.0 && y > 0.0
    ensures x * y > 0.0
  {
  }

  lemma MulNonNegative(x: real, y: real)
    requires x >= 0.0 && y >= 0.0
    ensures x * y >= 0.0
  {
  }

  lemma SquareMonotone(a: real, b: real)
    requires a >= 0.0 && b >= 0.0
    ensures a > b <==> a * a > b * b
  {
    if a > b {
      var x, y := a - b, a + b;
      assert x > 0.0 && y > 0.0;
      MulPositive(x, y);
      assert a * a - b * b == x * y;
    } else {
      assert b * b - a * a == (b - a) * (a + b);
      assert (b - a) * (a + b) >= 0.0;
    }
  }

  /**
   * The square-root-free test agrees with numpy's `place > mean + alpha*std`
   * for the (unique non-negative) standard deviation sd.
   */
  lemma StdFenceMeaning(place: int, s: seq<int>, alpha: real, sd: real)
    requires |s| > 0 && sd >= 0.0 && sd * sd == Variance(s)
    ensures AboveStdFence(place, s, alpha) <==> place as real > Mean(s) + alpha * sd
  {
    var d := place as real - Mean(s);
    var t := alpha * sd;
    assert alpha * alpha * Variance(s) == t * t;
    if alpha >= 0.0 {
      assert t >= 0.0;
      if d > 0.0 { SquareMonotone(d, t); }
    } else {
      var u := -t;
      assert u >= 0.0 && u * u == t * t;
      if d < 0.0 { SquareMonotone(u, -d); }
      if d == 0.0 {
        assert u > 0.0 <==> u * u > 0.0;
      }
    }
  }

  /** A larger alpha never flags a placing a smaller alpha lets through. */
  lemma StdFenceAntitone(place: int, s: seq<int>, a1: real, a2: real)
    requires a1 <= a2
    ensures AboveStdFence(place, s, a2) ==> AboveStdFence(place, s, a1)
  {
    if |s| > 0 && AboveStdFence(place, s, a2) {
      var v := Variance(s);
      var d := place as real - Mean(s);
      if a1 >= 0.0 {
        assert a1 * a1 <= a2 * a2 by { SquareMonotone(a1, a2); }
        assert a1 * a1 * v <= a2 * a2 * v;
      } else if a2 < 0.0 {
        assert a2 * a2 <= a1 * a1 by { SquareMonotone(-a2, -a1); }
        assert a2 * a2 * v <= a1 * a1 * v;
      }
    }
  }

  function IntKey(x: int): real { x as real }

  /** np.sort of a list of ints (any sort gives the same result on ints). */
  function SortInts(s: seq<int>): (r: seq<int>)
    ensures multiset(r) == multiset(s) && |r| == |s|
    ensures forall i, j :: 0 <= i < j < |r| ==> r[i] <= r[j]
  {
    StableSort.SortFacts(s, IntKey);
    StableSort.Sort(s, IntKey)
  }

  /**
   * numpy's "linear" quantile of a sorted list x at the virtual index h4/4:
   * the value at lo = floor(h4/4), moved towards the next value by the
   * fraction (h4 mod 4)/4 of the gap between them.
   */
  function Interpolate(x: seq<int>, h4: nat): real
    requires h4 / 4 < |x| && (h4 % 4 != 0 ==> h4 / 4 + 1 < |x|)
  {
    var lo := h4 / 4;
    if h4 % 4 == 0 then x[lo] as real
    else x[lo] as real + ((h4 % 4) as real / 4.0) * (x[lo + 1] - x[lo]) as real
  }

  /** An interpolated value lies between the two neighbours it interpolates. */
  lemma InterpolateBounds(x: seq<int>, h4: nat)
    requires h4 / 4 < |x| && (h4 % 4 != 0 ==> h4 / 4 + 1 < |x|)
    requires forall i, j :: 0 <= i < j < |x| ==> x[i] <= x[j]
    ensures x[h4 / 4] as real <= Interpolate(x, h4)
    ensures h4 % 4 != 0 ==> Interpolate(x, h4) <= x[h4 / 4 + 1] as real
    ensures h4 % 4 == 0 ==> Interpolate(x, h4) == x[h4 / 4] as real
  {
    var lo := h4 / 4;
    if h4 % 4 != 0 {
      var diff := (x[lo + 1] - x[lo]) as real;
      var frac := (h4 % 4) as real / 4.0;
      assert diff >= 0.0 && 0.0 <= frac <= 1.0;
      MulNonNegative(frac, diff);
      MulNonNegative(1.0 - frac, diff);
      assert diff - frac * diff == (1.0 - frac) * diff;
    }
  }

  /** np.quantile(s, 0.25): virtual index (n-1)/4. */
  function Q1(s: seq<int>): real
    requires |s| > 0
  {
    Interpolate(SortInts(s), |s| - 1)
  }

  /** np.quantile(s, 0.75): virtual index 3(n-1)/4. */
  function Q3(s: seq<int>): real
    requires |s| > 0
  {
    Interpolate(SortInts(s), 3 * (|s| - 1))
  }

  /** The first quartile never exceeds the third, so the IQR is never negative. */
  lemma QuartilesOrdered(s: seq<int>)
    requires |s| > 0
    ensures Q1(s) <= Q3(s)
  {
    InterpolateMonotone(SortInts(s), |s| - 1, 3 * (|s| - 1));
  }

  /** On a sorted list, a later virtual index interpolates to a value at least as large. */
  lemma InterpolateMonotone(x: seq<int>, h1: nat, h3: nat)
    requires h1 <= h3 && h3 / 4 < |x| && (h3 % 4 != 0 ==> h3 / 4 + 1 < |x|)
    requires forall i, j :: 0 <= i < j < |x| ==> x[i] <= x[j]
    ensures Interpolate(x, h1) <= Interpolate(x, h3)
  {
    InterpolateBounds(x, h1);
    InterpolateBounds(x, h3);
    var lo1, lo3 := h1 / 4, h3 / 4;
    if lo1 < lo3 {
      assert h1 % 4 != 0 ==> x[lo1 + 1] <= x[lo3];
      assert x[lo1] <= x[lo3];
    } else {
      assert h1 % 4 <= h3 % 4;
      if h1 % 4 != 0 {
        var diff := (x[lo1 + 1] - x[lo1]) as real;
        var f1, f3 := (h1 % 4) as real / 4.0, (h3 % 4) as real / 4.0;
        MulNonNegative(f3 - f1, diff);
        assert f3 * diff - f1 * diff == (f3 - f1) * diff;
      }
    }
  }

  /** The IQR fence `q3 + alpha * (q3 - q1)`. */
  function IqrFence(s: seq<int>, alpha: real): real
    requires |s| > 0
  {
    Fence(Q1(s), Q3(s), alpha)
  }

  /** `(q3 - q1) * alpha + q3`. */
  function Fence(q1: real, q3: real, alpha: real): real
  {
    (q3 - q1) * alpha + q3
  }

  /** The fence is at least q3 for a non-negative alpha and grows with alpha. */
  lemma IqrFenceMonotone(s: seq<int>, a1: real, a2: real)
    requires |s| > 0 && a1 <= a2
    ensures IqrFence(s, a1) <= IqrFence(s, a2)
    ensures a1 >= 0.0 ==> IqrFence(s, a1) >= Q3(s)
  {
    QuartilesOrdered(s);
    FenceArithmetic(Q1(s), Q3(s), a1, a2);
  }

  lemma FenceArithmetic(q1: real, q3: real, a1: real, a2: real)
    requires q1 <= q3 && a1 <= a2
    ensures Fence(q1, q3, a1) <= Fence(q1, q3, a2)
    ensures a1 >= 0.0 ==> Fence(q1, q3, a1) >= q3
  {
    var iqr := q3 - q1;
    MulNonNegative(iqr, a2 - a1);
    assert iqr * a2 - iqr * a1 == iqr * (a2 - a1);
    if a1 >= 0.0 { MulNonNegative(iqr, a1); }
  }

  /**
   * Python's built-in `round` of the ratio num/den: to the nearest integer,
   * and to the even one when the ratio lies exactly half-way.
   */
  function RoundHalfEven(num: int, den: int): (r: int)
    requires den > 0
    ensures 2 * (r * den - num) <= den && 2 * (num - r * den) <= den
    ensures 2 * (r * den - num) == den || 2 * (num - r * den) == den ==> r % 2 == 0
    ensures num >= 0 ==> r >= 0
  {
    var q := num / den;
    var m := num % den;
    assert num == q * den + m;
    assert num >= 0 ==> q >= 0;
    if 2 * m < den then q
    else if 2 * m > den then q + 1
    else if q % 2 == 0 then q
    else q + 1
  }
}
