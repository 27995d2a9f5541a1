/**
 * The square root that `statistics.stdev` takes of the sample variance,
 * rounded to one decimal as the statistics engine stores it.  The rounded
 * root is computed exactly from an integer square root, so it needs no
 * floating-point square root.
 */
module Roots {
  import opened Numbers

  /** The integer square root: the largest `r` with `r * r <= n`. */
  function ISqrt(n: nat): nat
  {
    if n == 0 then 0
    else
      var r := ISqrt(n - 1);
      if (r + 1) * (r + 1) <= n then r + 1 else r
  }

  lemma {:induction false} ISqrtBounds(n: nat)
    ensures ISqrt(n) * ISqrt(n) <= n < (ISqrt(n) + 1) * (ISqrt(n) + 1)
  {
    if n > 0 {
      ISqrtBounds(n - 1);
      var r := ISqrt(n - 1);
      if (r + 1) * (r + 1) <= n {
        assert (r + 1) * (r + 1) == n;
        assert (r + 2) * (r + 2) == (r + 1) * (r + 1) + 2 * r + 3;
      }
    }
  }

  lemma ProductPositive(a: real, b: real)
    requires a > 0.0 && b > 0.0
    ensures a * b > 0.0
  {
  }

  lemma SquareMonotone(a: real, b: real)
    requires 0.0 <= a <= b
    ensures a * a <= b * b
  {
    if a < b {
      SquareStrict(a, b);
    }
  }

  lemma SquareStrict(a: real, b: real)
    requires 0.0 <= a < b
    ensures a * a < b * b
  {
    ProductPositive(b - a, b + a);
    assert (b - a) * (b + a) == b * b - a * a;
  }

  /** The integer square root is the unique `r` whose square and successor's square bracket `n`. */
  lemma ISqrtUnique(n: nat, r: nat)
    requires r * r <= n < (r + 1) * (r + 1)
    ensures ISqrt(n) == r
  {
    var q := ISqrt(n);
    ISqrtBounds(n);
    if q < r {
      SquareMonotone((q + 1) as real, r as real);
    } else if q > r {
      SquareMonotone((r + 1) as real, q as real);
    }
  }

  /** `round(sqrt(v), 1)` for a non-negative `v`: ten times the root rounded half to even, over ten. */
  function RoundedSqrt1(v: real): real
    requires v >= 0.0
  {
    var y := 100.0 * v;
    RootIndex(y, ISqrt(y.Floor)) as real / 10.0
  }

  /** The square of `r + 1/2`, the point where the root of `y` rounds up from `r`. */
  function HalfSquare(r: int): real
  {
    (r as real + 0.5) * (r as real + 0.5)
  }

  /** Rounds the root of `y`, whose floor is `r`, to an integer, ties to even. */
  function RootIndex(y: real, r: int): int
  {
    if y < HalfSquare(r) then r
    else if y > HalfSquare(r) then r + 1
    else if r % 2 == 0 then r else r + 1
  }

  lemma CastSquare(r: int)
    ensures (r * r) as real == r as real * r as real
  {
  }

  /** The square of a non-negative `z` lies between the squares of its floor and of its floor plus one. */
  lemma SquareBetween(z: real, k: int)
    requires z >= 0.0 && k == z.Floor
    ensures k as real * k as real <= z * z < (k + 1) as real * (k + 1) as real
  {
    SquareMonotone(k as real, z);
    SquareStrict(z, (k + 1) as real);
  }

  /** The same bracket, with the squares taken on integers. */
  lemma CastBracket(y: real, k: int)
    requires k as real * k as real <= y < (k + 1) as real * (k + 1) as real
    ensures (k * k) as real <= y < ((k + 1) * (k + 1)) as real
  {
    CastSquare(k);
    CastSquare(k + 1);
  }

  /** Integers bracketing `y` bracket its floor. */
  lemma FloorBracket(y: real, lo: int, hi: int)
    requires lo as real <= y < hi as real
    ensures lo <= y.Floor < hi
  {
  }

  /** For `z >= 0` with `z * z == y`, the integer square root of the floor of `y` is the floor of `z`. */
  lemma RootFloor(y: real, z: real)
    requires z >= 0.0 && y == z * z
    ensures ISqrt(y.Floor) == z.Floor
  {
    var k := z.Floor;
    SquareBetween(z, k);
    CastBracket(y, k);
    FloorBracket(y, k * k, (k + 1) * (k + 1));
    ISqrtUnique(y.Floor, k);
  }

  /** Comparing a non-negative root `z` of `y` with `r + 1/2` is the same as comparing `y` with its square. */
  lemma CompareWithHalf(y: real, z: real, r: int)
    requires z >= 0.0 && y == z * z && r >= 0
    ensures z < r as real + 0.5 <==> y < HalfSquare(r)
    ensures z > r as real + 0.5 <==> y > HalfSquare(r)
  {
    var c := r as real + 0.5;
    assert HalfSquare(r) == c * c;
    if z < c {
      SquareStrict(z, c);
    } else if z > c {
      SquareStrict(c, z);
    }
  }

  /** Whatever the exact square root `x` of `v` is, the rounded root is `round(x, 1)`. */
  lemma RoundedSqrt1IsRoundOfRoot(v: real, x: real)
    requires x >= 0.0 && x * x == v
    ensures RoundedSqrt1(v) == Round1(x)
  {
    var y, z := 100.0 * v, x * 10.0;
    assert y == z * z;
    RootFloor(y, z);
    var r := z.Floor;
    CompareWithHalf(y, z, r);
    RootIndexRounds(y, z, r);
  }

  lemma RootIndexRounds(y: real, z: real, r: int)
    requires r == z.Floor
    requires z < r as real + 0.5 <==> y < HalfSquare(r)
    requires z > r as real + 0.5 <==> y > HalfSquare(r)
    ensures RootIndex(y, r) == RoundHalfEven(z)
  {
  }

  /** The rounded root is never negative. */
  lemma RoundedSqrt1NonNegative(v: real)
    requires v >= 0.0
    ensures RoundedSqrt1(v) >= 0.0
  {
  }
}
