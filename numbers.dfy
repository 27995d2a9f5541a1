/**
 * The numeric vocabulary of the statistics engine: Python's `round(x, 1)` and
 * the `max`, `mean`, `median` and `stdev` it takes from Python's `statistics`
 * module.  Floating-point values are modelled as exact rationals (`real`);
 * `statistics.mean` and `statistics.variance` themselves compute on exact
 * fractions before converting back to a float, so only the final conversion
 * is abstracted away.
 */
module Numbers {

  /** Rounds `y` to a nearest integer; a tie goes to the even neighbour, as Python 3's `round` does. */
  function RoundHalfEven(y: real): (n: int)
    ensures n as real - 0.5 <= y <= n as real + 0.5
    ensures y - y.Floor as real == 0.5 ==> n % 2 == 0
  {
    var f := y.Floor;
    var frac := y - f as real;
    if frac < 0.5 then f
    else if frac > 0.5 then f + 1
    else if f % 2 == 0 then f else f + 1
  }

  /** `round(x, 1)`: `x` rounded to one decimal place, ties to even. */
  function Round1(x: real): real
  {
    RoundHalfEven(x * 10.0) as real / 10.0
  }

  /** `round(x, 1)` has one decimal place and lies within 0.05 of `x`. */
  lemma Round1Near(x: real)
    ensures x - 0.05 <= Round1(x) <= x + 0.05
    ensures (Round1(x) * 10.0).Floor as real == Round1(x) * 10.0
  {
    var n := RoundHalfEven(x * 10.0);
    assert Round1(x) * 10.0 == n as real;
  }

  lemma RoundHalfEvenMonotone(y: real, z: real)
    requires y <= z
    ensures RoundHalfEven(y) <= RoundHalfEven(z)
  {
    var fy, fz := y.Floor, z.Floor;
    if fy == fz {
      assert y - fy as real <= z - fz as real;
    } else {
      assert fy < fz;
    }
  }

  /** Rounding to one decimal never reverses an order: `x <= y` gives `round(x, 1) <= round(y, 1)`. */
  lemma Round1Monotone(x: real, y: real)
    requires x <= y
    ensures Round1(x) <= Round1(y)
  {
    RoundHalfEvenMonotone(x * 10.0, y * 10.0);
  }

  /** A value that already has one decimal place, `k / 10`, is left unchanged by `round(x, 1)`. */
  lemma Round1Exact(k: int)
    ensures Round1(k as real / 10.0) == k as real / 10.0
  {
    var y := (k as real / 10.0) * 10.0;
    assert y == k as real;
    assert y.Floor == k;
  }

  /** Sum of a sequence of reals, accumulated from the front as Python's `sum` does. */
  function Sum(s: seq<real>): real
  {
    if |s| == 0 then 0.0 else Sum(s[..|s| - 1]) + s[|s| - 1]
  }

  /** An upper bound on every element bounds the sum. */
  lemma {:induction false} SumAtMost(s: seq<real>, hi: real)
    requires forall i :: 0 <= i < |s| ==> s[i] <= hi
    ensures Sum(s) <= |s| as real * hi
  {
    if |s| > 0 {
      SumAtMost(s[..|s| - 1], hi);
    }
  }

  /** A lower bound on every element bounds the sum. */
  lemma {:induction false} SumAtLeast(s: seq<real>, lo: real)
    requires forall i :: 0 <= i < |s| ==> lo <= s[i]
    ensures |s| as real * lo <= Sum(s)
  {
    if |s| > 0 {
      SumAtLeast(s[..|s| - 1], lo);
    }
  }

  lemma {:induction false} SumAppend(s: seq<real>, t: seq<real>)
    ensures Sum(s + t) == Sum(s) + Sum(t)
  {
    if |t| > 0 {
      assert (s + t)[..|s + t| - 1] == s + t[..|t| - 1];
      SumAppend(s, t[..|t| - 1]);
    } else {
      assert s + t == s;
    }
  }

  /** `statistics.mean`: the arithmetic mean of a non-empty sequence. */
  function Mean(s: seq<real>): real
    requires |s| > 0
  {
    Sum(s) / |s| as real
  }

  /** Python's `max` over a non-empty sequence: an element that no element exceeds. */
  function Max(s: seq<real>): (m: real)
    requires |s| > 0
    ensures m in s
    ensures forall i :: 0 <= i < |s| ==> s[i] <= m
  {
    if |s| == 1 then s[0]
    else
      var m0 := Max(s[..|s| - 1]);
      if s[|s| - 1] > m0 then s[|s| - 1] else m0
  }

  lemma QuotientBounds(a: real, n: real, b: real)
    requires n > 0.0
    ensures a <= n * b ==> a / n <= b
    ensures n * b <= a ==> b <= a / n
  {
    assert a / n * n == a;
  }

  /** The mean never exceeds the maximum. */
  lemma MeanAtMostMax(s: seq<real>)
    requires |s| > 0
    ensures Mean(s) <= Max(s)
  {
    var m, n := Max(s), |s| as real;
    SumAtMost(s, m);
    QuotientBounds(Sum(s), n, m);
  }

  /** The mean is at least any lower bound of the elements. */
  lemma MeanAtLeast(s: seq<real>, lo: real)
    requires |s| > 0
    requires forall i :: 0 <= i < |s| ==> lo <= s[i]
    ensures lo <= Mean(s)
  {
    var n := |s| as real;
    SumAtLeast(s, lo);
    QuotientBounds(Sum(s), n, lo);
  }

  predicate IsSorted(s: seq<real>)
  {
    forall i, j :: 0 <= i < j < |s| ==> s[i] <= s[j]
  }

  /** A value no larger than the head of a sorted sequence can be put in front of it. */
  lemma ConsSorted(x: real, s: seq<real>)
    requires IsSorted(s)
    requires |s| == 0 || x <= s[0]
    ensures IsSorted([x] + s)
  {
    var r := [x] + s;
    forall i, j | 0 <= i < j < |r| ensures r[i] <= r[j] {
      if i > 0 {
        assert r[i] == s[i - 1] && r[j] == s[j - 1];
      } else {
        assert r[j] == s[j - 1];
      }
    }
  }

  /** Inserts `x` into a sorted sequence, keeping it sorted. */
  function Insert(x: real, s: seq<real>): (r: seq<real>)
    requires IsSorted(s)
    ensures IsSorted(r)
    ensures multiset(r) == multiset(s) + multiset{x}
    ensures |r| == |s| + 1 && (r[0] == x || (|s| > 0 && r[0] == s[0]))
  {
    if s == [] then [x]
    else if x <= s[0] then
      ConsSorted(x, s);
      [x] + s
    else
      assert s == [s[0]] + s[1..];
      var t := Insert(x, s[1..]);
      ConsSorted(s[0], t);
      [s[0]] + t
  }

  /** Python's `sorted` on reals: an ascending permutation of the input. */
  function Sorted(s: seq<real>): (r: seq<real>)
    ensures IsSorted(r)
    ensures multiset(r) == multiset(s)
  {
    if s == [] then []
    else
      assert s == [s[0]] + s[1..];
      Insert(s[0], Sorted(s[1..]))
  }

  /**
   * `statistics.median`: the middle element of the sorted data, or the mean of
   * the two middle elements when the length is even.
   */
  function Median(s: seq<real>): real
    requires |s| > 0
  {
    var t := Sorted(s);
    assert |t| == |multiset(t)| == |multiset(s)| == |s|;
    var n := |t|;
    if n % 2 == 1 then t[n / 2]
    else (t[n / 2 - 1] + t[n / 2]) / 2.0
  }

  /** The median never exceeds the maximum. */
  lemma MedianAtMostMax(s: seq<real>)
    requires |s| > 0
    ensures Median(s) <= Max(s)
  {
    var t := Sorted(s);
    assert |t| == |multiset(t)| == |multiset(s)| == |s|;
    var n := |t|;
    assert t[n / 2] in multiset(s);
    if n % 2 == 0 {
      assert t[n / 2 - 1] in multiset(s);
    }
  }

  /** The median is at least any lower bound of the elements. */
  lemma MedianAtLeast(s: seq<real>, lo: real)
    requires |s| > 0
    requires forall i :: 0 <= i < |s| ==> lo <= s[i]
    ensures lo <= Median(s)
  {
    var t := Sorted(s);
    assert |t| == |multiset(t)| == |multiset(s)| == |s|;
    var n := |t|;
    assert t[n / 2] in multiset(s);
    if n % 2 == 0 {
      assert t[n / 2 - 1] in multiset(s);
    }
  }

  /** Sum of squared deviations of the elements from `m`. */
  function SquaredDeviations(s: seq<real>, m: real): (r: real)
    ensures r >= 0.0
  {
    if |s| == 0 then 0.0
    else
      var d := s[|s| - 1] - m;
      assert d * d >= 0.0 by {
        if d < 0.0 { assert d * d == (-d) * (-d); }
      }
      SquaredDeviations(s[..|s| - 1], m) + d * d
  }

  /** `statistics.variance`: the Bessel-corrected sample variance of at least two values. */
  function Variance(s: seq<real>): (v: real)
    requires |s| >= 2
    ensures v >= 0.0
  {
    SquaredDeviations(s, Mean(s)) / (|s| - 1) as real
  }
}
