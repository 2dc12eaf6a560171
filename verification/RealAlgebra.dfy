/** Inequalities between products of reals. The lemmas keep one step each, which
    is what the solver can do with products. */
module RealAlgebra {

  function Abs(x: real): real {
    if x < 0.0 then -x else x
  }

  lemma NonNegative(a: real, b: real)
    requires a >= 0.0 && b >= 0.0
    ensures a * b >= 0.0
  {
  }

  lemma Positive(a: real, b: real)
    requires a > 0.0 && b > 0.0
    ensures a * b > 0.0
  {
  }

  lemma MulMono(a: real, b: real, c: real)
    requires a <= b && c >= 0.0
    ensures a * c <= b * c
  {
    NonNegative(b - a, c);
    assert (b - a) * c == b * c - a * c;
  }

  lemma MulLess(a: real, b: real, c: real)
    requires a < b && c > 0.0
    ensures a * c < b * c
  {
    Positive(b - a, c);
    assert (b - a) * c == b * c - a * c;
  }

  lemma SquareOrder(a: real, b: real)
    requires b >= 0.0 && a * a <= b * b
    ensures a <= b
  {
    if a > b {
      Difference(a, b);
      Positive(a - b, a + b);
    }
  }

  lemma Difference(a: real, b: real)
    ensures (a - b) * (a + b) == a * a - b * b
  {
  }

  lemma SquareBound(x: real, b: real)
    requires -b <= x <= b
    ensures x * x <= b * b
  {
    NonNegative(b - x, b + x);
    assert (b - x) * (b + x) == b * b - x * x;
  }

  lemma AbsSquare(x: real, a: real)
    requires a == Abs(x)
    ensures a * a == x * x
  {
  }

  lemma CancelRight(a: real, b: real, s: real)
    requires s > 0.0 && a * s == b * s
    ensures a == b
  {
    assert (a - b) * s == 0.0;
  }

  lemma NormShort(q: real, k: real, d: real)
    requires q * q < k && d > 0.0
    ensures (q * d) * (q * d) < k * (d * d)
  {
    var g := k - q * q;
    Positive(g, d);
    assert g * d == k * d - (q * q) * d;
    assert (g * d) * d > 0.0;
    assert (g * d) * d == k * (d * d) - (q * q) * (d * d);
  }

  /** A step e = q d is shorter than the norm of d. */
  lemma StepShort(q: real, k: real, d: real, e: real)
    requires q >= 0.0 && q * q < k && d > 0.0 && e == q * d
    ensures e >= 0.0 && e * e < k * (d * d)
  {
    NonNegative(q, d);
    calc {
      e * e;
      (q * d) * (q * d);
    < { NormShort(q, k, d); }
      k * (d * d);
    }
  }

  lemma CrossTerm(a: real, e: real, k: real, u: real, d: real)
    requires a >= 0.0 && e >= 0.0 && k >= 0.0 && u >= 0.0 && d >= 0.0
    requires a * a <= k * (u * u) && e * e <= k * (d * d)
    ensures a * e <= k * (u * d)
  {
    NonNegative(e, e);
    NonNegative(u, u);
    NonNegative(k, u * u);
    NonNegative(u, d);
    NonNegative(k, u * d);
    calc {
      (a * e) * (a * e);
      (a * a) * (e * e);
    <= { MulMono(a * a, k * (u * u), e * e); }
      (k * (u * u)) * (e * e);
    ==
      (e * e) * (k * (u * u));
    <= { MulMono(e * e, k * (d * d), k * (u * u)); }
      (k * (d * d)) * (k * (u * u));
      (k * (u * d)) * (k * (u * d));
    }
    SquareOrder(a * e, k * (u * d));
  }

  lemma SumOfSquares(a: real, e: real, k: real, u: real, d: real)
    requires a * a <= k * (u * u) && a * e <= k * (u * d) && e * e < k * (d * d)
    ensures (a + e) * (a + e) < k * ((u + d) * (u + d))
  { }

  lemma GrowsSlower(a: real, e: real, k: real, u: real, d: real, s: real, v: real)
    requires a * a <= k * (u * u) && a * e <= k * (u * d) && e * e < k * (d * d)
    requires s == a + e && v == u + d
    ensures s * s < k * (v * v)
  {
    SumOfSquares(a, e, k, u, d);
  }

  /** x is at most the norm of u and the step e shorter than the norm of d, so
      x - e is less than the norm of u + d. */
  lemma StepLosesGround(x: real, e: real, k: real, u: real, d: real, y: real, v: real)
    requires e >= 0.0 && k >= 0.0 && u >= 0.0 && d >= 0.0 && y == x - e && v == u + d
    requires x * x <= k * (u * u) && e * e < k * (d * d)
    ensures y * y < k * (v * v)
  {
    var a := Abs(x);
    AbsSquare(x, a);
    CrossTerm(a, e, k, u, d);
    SumKeepsOrder(x, e, k, u, d, y, v, a);
  }

  lemma SumKeepsOrder(x: real, e: real, k: real, u: real, d: real, y: real, v: real, a: real)
    requires e >= 0.0 && a == Abs(x) && y == x - e && v == u + d
    requires a * a <= k * (u * u) && a * e <= k * (u * d) && e * e < k * (d * d)
    ensures y * y < k * (v * v)
  {
    var s := a + e;
    GrowsSlower(a, e, k, u, d, s, v);
    SquareBound(y, s);
  }
}
