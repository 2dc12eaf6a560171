/** get_expected_position_x (launchers.c): the bisection that finds the column in
    which a defender meets its target, over exact reals. Lengths are compared by
    their squares, so no square root is needed: both sides of every comparison in
    the source are non-negative. */
module Interception {
  import opened Missiles
  import opened RealAlgebra

  const DEF_MISSILE_SPEED := 130.0
  const SAMPLE_LIMIT := 100

  /** trajectory_t: the line y = m x + b and the speed along it. */
  datatype Trajectory = Trajectory(m: real, b: real, speed: real)

  function Y(t: Trajectory, x: real): real {
    t.m * x + t.b
  }

  /** speed / DEF_MISSILE_SPEED. */
  function Ratio(t: Trajectory): real {
    t.speed / DEF_MISSILE_SPEED
  }

  /** The row defenders start from. */
  function StartY(p: Params): real {
    DefSpawn(p, 0).y as real
  }

  /** dsa squared: the way of the target from its last position to column x. */
  function Dsa2(t: Trajectory, c: Pos, x: real): real {
    (Y(t, x) - c.y as real) * (Y(t, x) - c.y as real) + (x - c.x as real) * (x - c.x as real)
  }

  /** tmp_dsa squared: that way as it would be if the defender arrived in time. */
  function TmpDsa2(p: Params, t: Trajectory, x: real): real {
    (Ratio(t) * (StartY(p) - Y(t, x))) * (Ratio(t) * (StartY(p) - Y(t, x)))
  }

  /** Positive, zero or negative like tmp_dsa - dsa. */
  function Gap(p: Params, t: Trajectory, c: Pos, x: real): real {
    TmpDsa2(p, t, x) - Dsa2(t, c, x)
  }

  /** The side of the last position on which the source searches. */
  predicate OnSide(t: Trajectory, c: Pos, x: real) {
    if t.m < 0.0 then x <= c.x as real else x >= c.x as real
  }

  /** Column x is an intercept. */
  predicate Meets(p: Params, t: Trajectory, c: Pos, x: real) {
    OnSide(t, c, x) && Gap(p, t, c, x) == 0.0
  }

  /** The line runs through the last position. */
  predicate Through(t: Trajectory, c: Pos) {
    c.y as real == Y(t, c.x as real)
  }

  /** Along the line, the target gains height more slowly than the defender climbs. */
  predicate Slow(t: Trajectory) {
    t.speed >= 0.0 && (Ratio(t) * t.m) * (Ratio(t) * t.m) < 1.0 + t.m * t.m
  }

  /** A target slower than a defender is slow along every line. */
  lemma SlowerIsSlow(t: Trajectory)
    requires 0.0 <= t.speed < DEF_MISSILE_SPEED
    ensures Slow(t)
  {
    var r := Ratio(t);
    assert 0.0 <= r < 1.0;
    var m2 := t.m * t.m;
    assert (r * t.m) * (r * t.m) == (r * r) * m2;
    assert r * r <= 1.0;
    assert m2 >= 0.0;
    MulMono(r * r, 1.0, m2);
  }

  // ----- the gap along the line -----

  /** The distance of column x from the last position, on the searched side. */
  function Away(t: Trajectory, c: Pos, x: real): real {
    if t.m < 0.0 then c.x as real - x else x - c.x as real
  }

  /** The gap at distance u, as the square of the scaled height that is left minus
      the square of the way: a - q u against the norm k of u. */
  function GapOver(a: real, q: real, k: real, u: real): real {
    (a - q * u) * (a - q * u) - k * (u * u)
  }

  /** The three numbers the gap depends on besides the distance: the scaled height
      of the target above the start line, the scaled rows it comes down per column,
      and the squared length of its line per column. */
  ghost predicate Terms(p: Params, t: Trajectory, c: Pos, a: real, q: real, k: real) {
    && a == Ratio(t) * (StartY(p) - c.y as real)
    && q == Ratio(t) * Abs(t.m)
    && k == 1.0 + t.m * t.m
  }

  lemma SlowTerms(p: Params, t: Trajectory, c: Pos) returns (a: real, q: real, k: real)
    requires Slow(t)
    ensures Terms(p, t, c, a, q, k)
    ensures q >= 0.0 && q * q < k
  {
    var r, am := Ratio(t), Abs(t.m);
    a, q, k := r * (StartY(p) - c.y as real), r * am, 1.0 + t.m * t.m;
    NonNegative(r, am);
    calc {
      q * q;
      (r * am) * (r * am);
      (r * t.m) * (r * t.m);
    <
      k;
    }
  }

  /** Both squared lengths in terms of the distance. */
  lemma LengthsAt(p: Params, t: Trajectory, c: Pos, x: real)
    requires Through(t, c)
    ensures var u := Away(t, c, x); var h := StartY(p) - c.y as real;
      && Y(t, x) == c.y as real + Abs(t.m) * u
      && Dsa2(t, c, x) == (1.0 + t.m * t.m) * (u * u)
      && Ratio(t) * (StartY(p) - Y(t, x)) == Ratio(t) * h - (Ratio(t) * Abs(t.m)) * u
  {
    var u := Away(t, c, x);
    var d := x - c.x as real;
    assert t.m * x - t.m * c.x as real == t.m * d;
    assert Y(t, x) - c.y as real == t.m * d;
    assert t.m * d == Abs(t.m) * u;
    assert d * d == u * u;
    assert (t.m * d) * (t.m * d) == (t.m * t.m) * (u * u);
    assert Dsa2(t, c, x) == (t.m * t.m) * (u * u) + u * u;
    Scale(Ratio(t), StartY(p) - c.y as real, Abs(t.m), u);
  }

  lemma Scale(r: real, h: real, am: real, u: real)
    ensures r * (h - am * u) == r * h - (r * am) * u
  {
  }

  lemma GapForm(p: Params, t: Trajectory, c: Pos, x: real, a: real, q: real, k: real)
    requires Through(t, c) && Terms(p, t, c, a, q, k)
    ensures Gap(p, t, c, x) == GapOver(a, q, k, Away(t, c, x))
  {
    LengthsAt(p, t, c, x);
    var u := Away(t, c, x);
    var e := Ratio(t) * (StartY(p) - Y(t, x));
    calc {
      e * e;
      (a - q * u) * (a - q * u);
    }
  }

  /** Once the gap is not positive, it is negative further away. */
  lemma GapDecreases(a: real, q: real, k: real, u: real, v: real)
    requires q >= 0.0 && q * q < k && 0.0 <= u < v
    requires GapOver(a, q, k, u) <= 0.0
    ensures GapOver(a, q, k, v) < 0.0
  {
    NonNegative(q, q);
    var d, e, x, y := v - u, q * (v - u), a - q * u, a - q * v;
    StepShort(q, k, d, e);
    calc {
      x * x;
      (a - q * u) * (a - q * u);
    <=
      k * (u * u);
    }
    StepLosesGround(x, e, k, u, d, y, v);
    calc {
      (a - q * v) * (a - q * v);
      y * y;
    <
      k * (v * v);
    }
  }

  // ----- the difference the bisection compares with 0 -----

  /** tmp_dsa, line 702. */
  function TmpDsa(p: Params, t: Trajectory, x: real): real {
    Ratio(t) * Abs(StartY(p) - Y(t, x))
  }

  /** d is dsa, line 701: the root of the sum of squares. */
  predicate IsDsa(t: Trajectory, c: Pos, x: real, d: real) {
    d >= 0.0 && d * d == Dsa2(t, c, x)
  }

  /** For every dsa there is h > q with dsa = h u at all distances u. */
  lemma DsaSlope(q: real, k: real, v: real, d: real) returns (h: real)
    requires q >= 0.0 && q * q < k && v > 0.0 && d >= 0.0 && d * d == k * (v * v)
    ensures h > q && h * h == k && d == h * v
  {
    h := d / v;
    assert h * v == d;
    calc {
      (h * h) * (v * v);
      (h * v) * (h * v);
      d * d;
      k * (v * v);
    }
    Positive(v, v);
    CancelRight(h * h, k, v * v);
    if h <= q {
      DivNonNegative(d, v, h);
      SquareBound(h, q);
    }
  }

  lemma DivNonNegative(d: real, v: real, h: real)
    requires d >= 0.0 && v > 0.0 && h * v == d
    ensures h >= 0.0
  {
    if h < 0.0 { Positive(-h, v); }
  }

  /** dsa is h u: a non-negative number is determined by its square. */
  lemma DsaIs(h: real, k: real, u: real, d: real)
    requires h >= 0.0 && h * h == k && u >= 0.0 && d >= 0.0 && d * d == k * (u * u)
    ensures d == h * u
  {
    NonNegative(h, u);
    var e := h * u;
    calc {
      e * e;
      (h * h) * (u * u);
      d * d;
    }
    SquareOrder(e, d);
    SquareOrder(d, e);
  }

  /** tmp_dsa - dsa at distance u, where dsa is d. */
  function DifferenceOver(a: real, q: real, u: real, d: real): real {
    Abs(a - q * u) - d
  }

  /** One more step along the line costs the target more than it can gain on the
      defender, on either side of the start line. */
  lemma StepCosts(a: real, q: real, h: real, u: real, v: real)
    requires 0.0 <= q < h && u < v
    ensures DifferenceOver(a, q, v, h * v) < DifferenceOver(a, q, u, h * u)
  {
    var d := v - u;
    NonNegative(q, d);
    MulLess(q, h, d);
    Distribute(q, u, d, v);
    Distribute(h, u, d, v);
    LosesMore(a - q * u, a - q * v, q * d, h * d, h * u, h * v);
  }

  lemma Distribute(q: real, u: real, d: real, v: real)
    requires v == u + d
    ensures q * v == q * u + q * d
  {
  }

  lemma LosesMore(x: real, y: real, e: real, f: real, hu: real, hv: real)
    requires 0.0 <= e < f && y == x - e && hv == hu + f
    ensures Abs(y) - hv < Abs(x) - hu
  {
  }

  /** tmp_dsa - dsa in terms of the distance. */
  lemma DifferenceForm(p: Params, t: Trajectory, c: Pos, x: real, a: real, q: real, k: real, d: real)
    requires t.speed >= 0.0 && Through(t, c) && Terms(p, t, c, a, q, k)
    ensures TmpDsa(p, t, x) - d == DifferenceOver(a, q, Away(t, c, x), d)
  {
    LengthsAt(p, t, c, x);
    AbsScale(Ratio(t), StartY(p) - Y(t, x));
  }

  lemma AbsScale(r: real, g: real)
    requires r >= 0.0
    ensures r * Abs(g) == Abs(r * g)
  {
    if g < 0.0 {
      NonNegative(r, -g);
      assert r * (-g) == -(r * g);
    } else {
      NonNegative(r, g);
    }
  }

  /** tmp_dsa - dsa strictly decreases with the distance from the last position, for
      either sign of m and also past the start line, where fabs flips. In x it is
      strictly increasing for m < 0 and strictly decreasing otherwise. */
  lemma DifferenceMonotone(p: Params, t: Trajectory, c: Pos, x1: real, x2: real, d1: real, d2: real)
    requires Slow(t) && Through(t, c) && OnSide(t, c, x1) && OnSide(t, c, x2) && x1 < x2
    requires IsDsa(t, c, x1, d1) && IsDsa(t, c, x2, d2)
    ensures if t.m < 0.0 then TmpDsa(p, t, x1) - d1 < TmpDsa(p, t, x2) - d2
            else TmpDsa(p, t, x1) - d1 > TmpDsa(p, t, x2) - d2
  {
    if t.m < 0.0 {
      FartherLosesMore(p, t, c, x2, x1, d2, d1);
    } else {
      FartherLosesMore(p, t, c, x1, x2, d1, d2);
    }
  }

  lemma DsaSquare(p: Params, t: Trajectory, c: Pos, x: real, d: real, a: real, q: real, k: real)
    requires Through(t, c) && IsDsa(t, c, x, d) && Terms(p, t, c, a, q, k)
    ensures d * d == k * (Away(t, c, x) * Away(t, c, x))
  {
    LengthsAt(p, t, c, x);
  }

  lemma FormAt(p: Params, t: Trajectory, c: Pos, x: real, a: real, q: real, k: real, d: real) returns (u: real)
    requires Slow(t) && Through(t, c) && OnSide(t, c, x) && IsDsa(t, c, x, d) && Terms(p, t, c, a, q, k)
    ensures u == Away(t, c, x) && u >= 0.0 && d >= 0.0 && d * d == k * (u * u)
    ensures TmpDsa(p, t, x) - d == DifferenceOver(a, q, u, d)
  {
    u := Away(t, c, x);
    DifferenceForm(p, t, c, x, a, q, k, d);
    DsaSquare(p, t, c, x, d, a, q, k);
  }

  lemma FormAtBoth(p: Params, t: Trajectory, c: Pos, x: real, y: real, d: real, e: real)
    returns (a: real, q: real, k: real, u: real, v: real)
    requires Slow(t) && Through(t, c) && OnSide(t, c, x) && OnSide(t, c, y)
    requires IsDsa(t, c, x, d) && IsDsa(t, c, y, e)
    ensures q >= 0.0 && q * q < k
    ensures u == Away(t, c, x) && u >= 0.0 && d >= 0.0 && d * d == k * (u * u)
    ensures v == Away(t, c, y) && e >= 0.0 && e * e == k * (v * v)
    ensures TmpDsa(p, t, x) - d == DifferenceOver(a, q, u, d)
    ensures TmpDsa(p, t, y) - e == DifferenceOver(a, q, v, e)
  {
    a, q, k := SlowTerms(p, t, c);
    u := FormAt(p, t, c, x, a, q, k, d);
    v := FormAt(p, t, c, y, a, q, k, e);
  }

  lemma FartherLosesMore(p: Params, t: Trajectory, c: Pos, x: real, y: real, d: real, e: real)
    requires Slow(t) && Through(t, c) && OnSide(t, c, x) && OnSide(t, c, y) && Away(t, c, x) < Away(t, c, y)
    requires IsDsa(t, c, x, d) && IsDsa(t, c, y, e)
    ensures TmpDsa(p, t, y) - e < TmpDsa(p, t, x) - d
  {
    var a, q, k, u, v := FormAtBoth(p, t, c, x, y, d, e);
    FartherCosts(a, q, k, u, v, d, e);
  }

  lemma FartherCosts(a: real, q: real, k: real, u: real, v: real, d: real, e: real)
    requires q >= 0.0 && q * q < k && 0.0 <= u < v
    requires d >= 0.0 && d * d == k * (u * u) && e >= 0.0 && e * e == k * (v * v)
    ensures DifferenceOver(a, q, v, e) < DifferenceOver(a, q, u, d)
  {
    var h := DsaSlope(q, k, v, e);
    DsaIs(h, k, u, d);
    StepCosts(a, q, h, u, v);
  }

  /** The sign of the gap is the sign of tmp_dsa - dsa. */
  lemma GapSign(p: Params, t: Trajectory, c: Pos, x: real, d: real)
    requires t.speed >= 0.0 && IsDsa(t, c, x, d)
    ensures Gap(p, t, c, x) > 0.0 <==> TmpDsa(p, t, x) > d
    ensures Gap(p, t, c, x) == 0.0 <==> TmpDsa(p, t, x) == d
  {
    var e, g := TmpDsa(p, t, x), Ratio(t) * (StartY(p) - Y(t, x));
    NonNegative(Ratio(t), Abs(StartY(p) - Y(t, x)));
    AbsScale(Ratio(t), StartY(p) - Y(t, x));
    AbsSquare(g, e);
    assert e * e - d * d == Gap(p, t, c, x);
    Difference(e, d);
    SignOfProduct(e - d, e + d);
  }

  lemma SignOfProduct(x: real, s: real)
    requires s >= 0.0 && -s <= x <= s
    ensures x * s > 0.0 <==> x > 0.0
    ensures x * s == 0.0 <==> x == 0.0
  {
    if x > 0.0 { Positive(x, s); }
    if x < 0.0 { Positive(-x, s); }
  }

  /** The gap is positive before its zero and negative after it. */
  lemma SignTells(a: real, q: real, k: real, u: real, v: real)
    requires q >= 0.0 && q * q < k && 0.0 <= u && 0.0 <= v
    requires GapOver(a, q, k, v) == 0.0
    ensures GapOver(a, q, k, u) > 0.0 <==> u < v
    ensures GapOver(a, q, k, u) < 0.0 <==> u > v
  {
    if u > v {
      GapDecreases(a, q, k, v, u);
    } else if u < v && GapOver(a, q, k, u) <= 0.0 {
      GapDecreases(a, q, k, u, v);
    }
  }

  /** The sign of tmp_dsa - dsa tells on which side of the intercept a column is,
      for either sign of m and on either side of the start line. */
  lemma GapTells(p: Params, t: Trajectory, c: Pos, root: real, x: real)
    requires Slow(t) && Through(t, c) && Meets(p, t, c, root) && OnSide(t, c, x)
    ensures Gap(p, t, c, x) > 0.0 <==> Away(t, c, x) < Away(t, c, root)
    ensures Gap(p, t, c, x) < 0.0 <==> Away(t, c, x) > Away(t, c, root)
  {
    var a, q, k := SlowTerms(p, t, c);
    GapForm(p, t, c, x, a, q, k);
    GapForm(p, t, c, root, a, q, k);
    SignTells(a, q, k, Away(t, c, x), Away(t, c, root));
  }

  /** There is at most one intercept. */
  lemma InterceptUnique(p: Params, t: Trajectory, c: Pos, x1: real, x2: real)
    requires Slow(t) && Through(t, c) && Meets(p, t, c, x1) && Meets(p, t, c, x2)
    ensures x1 == x2
  {
    GapTells(p, t, c, x1, x2);
  }

  /** For a target above the start line the intercept is above it too. */
  lemma InterceptAboveStart(p: Params, t: Trajectory, c: Pos, x: real)
    requires Slow(t) && Through(t, c) && Meets(p, t, c, x) && c.y as real <= StartY(p)
    ensures Y(t, x) <= StartY(p)
  {
    if Y(t, x) > StartY(p) {
      var a, q, k := SlowTerms(p, t, c);
      GapForm(p, t, c, x, a, q, k);
      LengthsAt(p, t, c, x);
      NonNegative(Ratio(t), StartY(p) - c.y as real);
      NonNegative(Ratio(t), Y(t, x) - StartY(p));
      assert Ratio(t) * (Y(t, x) - StartY(p)) == -(Ratio(t) * (StartY(p) - Y(t, x)));
      TooLow(a, q, k, Away(t, c, x));
    }
  }

  /** Below the start line the way still to climb is too short for the distance. */
  lemma TooLow(a: real, q: real, k: real, u: real)
    requires q >= 0.0 && q * q < k && a >= 0.0 && u > 0.0 && a - q * u <= 0.0
    ensures GapOver(a, q, k, u) < 0.0
  {
    var e, y := q * u, a - q * u;
    StepShort(q, k, u, e);
    SquareBound(y, e);
    calc {
      (a - q * u) * (a - q * u);
      y * y;
    <=
      e * e;
    <
      k * (u * u);
    }
  }

  /** What an intercept means: the defender needs as long to climb to the row of
      column x as the target needs to get there. */
  lemma InterceptTimes(p: Params, t: Trajectory, c: Pos, x: real, defTime: real, atkTime: real)
    requires t.speed > 0.0 && Meets(p, t, c, x)
    requires defTime >= 0.0 && defTime * DEF_MISSILE_SPEED == Abs(StartY(p) - Y(t, x))
    requires atkTime >= 0.0 && (atkTime * t.speed) * (atkTime * t.speed) == Dsa2(t, c, x)
    ensures defTime == atkTime
  {
    var e := Ratio(t) * (StartY(p) - Y(t, x));
    ScaledClimb(t.speed, StartY(p) - Y(t, x), defTime);
    calc {
      (atkTime * t.speed) * (atkTime * t.speed);
      Dsa2(t, c, x);
      TmpDsa2(p, t, x);
      e * e;
    }
    SameTime(t.speed, e, defTime, atkTime);
  }

  /** The same for the program's sizes, with the lengths written out: the target at (cx, cy)
      on the line y = m x + b reaches column x when a defender that starts from row 378
      in that column at 130 rows a second is on the same row. */
  lemma InterceptMeets(t: Trajectory, c: Pos, x: real, defTime: real, atkTime: real)
    requires t.speed > 0.0 && Meets(DEFAULT, t, c, x)
    requires defTime >= 0.0
    requires t.m * x + t.b == 378.0 - 130.0 * defTime || t.m * x + t.b == 378.0 + 130.0 * defTime
    requires atkTime >= 0.0
    requires var dx, dy := x - c.x as real, t.m * x + t.b - c.y as real;
      (atkTime * t.speed) * (atkTime * t.speed) == dx * dx + dy * dy
    ensures defTime == atkTime
  {
    InterceptTimes(DEFAULT, t, c, x, defTime, atkTime);
  }

  lemma ScaledClimb(s: real, g: real, defTime: real)
    requires s > 0.0 && defTime >= 0.0 && defTime * 130.0 == Abs(g)
    ensures Abs((s / 130.0) * g) == defTime * s
  {
    NonNegative(defTime, s);
    assert (s / 130.0) * (130.0 * defTime) == defTime * s;
  }

  lemma SameTime(s: real, e: real, defTime: real, atkTime: real)
    requires s > 0.0 && defTime >= 0.0 && atkTime >= 0.0
    requires Abs(e) == defTime * s && (atkTime * s) * (atkTime * s) == e * e
    ensures defTime == atkTime
  {
    var d, a := Abs(e), atkTime * s;
    NonNegative(atkTime, s);
    AbsSquare(e, d);
    calc {
      a * a;
      (atkTime * s) * (atkTime * s);
      e * e;
      d * d;
    }
    SquareOrder(d, a);
    SquareOrder(a, d);
    CancelRight(defTime, atkTime, s);
  }

  /** The intercept exists: with h = sqrt(1 + m^2) and a = r (StartY - cy) it is at
      distance a / (h + r |m|) from the last position, or, for a target below the
      start line, -a / (h - r |m|). */
  lemma InterceptExists(p: Params, t: Trajectory, c: Pos, h: real) returns (x: real)
    requires Slow(t) && Through(t, c)
    requires h > 0.0 && h * h == 1.0 + t.m * t.m
    ensures Meets(p, t, c, x)
  {
    var a, q, k := SlowTerms(p, t, c);
    if h <= q { SquareBound(h, q); }
    var u := if a >= 0.0 then a / (h + q) else -a / (h - q);
    x := if t.m < 0.0 then c.x as real - u else c.x as real + u;
    assert Away(t, c, x) == u;
    GapForm(p, t, c, x, a, q, k);
    if a >= 0.0 { ZeroAt(a, q, k, h, u); } else { ZeroBelow(a, q, k, h, u); }
  }

  lemma ZeroBelow(a: real, q: real, k: real, h: real, u: real)
    requires 0.0 <= q < h && a < 0.0 && h * h == k && u == -a / (h - q)
    ensures GapOver(a, q, k, u) == 0.0 && u >= 0.0
  {
    assert u * (h - q) == -a;
    if u < 0.0 { Positive(-u, h - q); }
    var y := a - q * u;
    assert y == -(u * h);
    calc {
      (a - q * u) * (a - q * u);
      y * y;
      (u * h) * (u * h);
      (h * h) * (u * u);
    }
  }

  lemma ZeroAt(a: real, q: real, k: real, h: real, u: real)
    requires h > 0.0 && q >= 0.0 && a >= 0.0 && h * h == k && u == a / (h + q)
    ensures GapOver(a, q, k, u) == 0.0 && u >= 0.0
  {
    assert u * (h + q) == a;
    var y := a - q * u;
    assert y == u * h;
    calc {
      (a - q * u) * (a - q * u);
      y * y;
      (u * h) * (u * h);
      (h * h) * (u * u);
    }
  }

  // ----- the bisection -----

  function LeftLimit(p: Params): int { p.thick + p.span + 1 }

  function RightLimit(p: Params): int { p.xwin - p.thick - p.span - 1 }

  /** Lines 691-692. */
  function InitialMin(p: Params, t: Trajectory, c: Pos): int {
    if t.m < 0.0 then LeftLimit(p) else c.x
  }

  function InitialMax(p: Params, t: Trajectory, c: Pos): int {
    if t.m < 0.0 then c.x else RightLimit(p)
  }

  function Clamp(x: real, lo: real, hi: real): real {
    if x < lo then lo else if x > hi then hi else x
  }

  function Pow2(n: nat): (r: real)
    ensures r >= 1.0
  {
    if n == 0 then 1.0 else 2.0 * Pow2(n - 1)
  }

  /** The cast of line 711: truncation toward zero. */
  function Truncate(x: real): int {
    if x >= 0.0 then x.Floor else -((-x).Floor)
  }

  /** The set of all intercepts; it has at most one element. */
  ghost function Intercepts(p: Params, t: Trajectory, c: Pos): iset<real> {
    iset x: real | Meets(p, t, c, x)
  }

  /** The intercepts of a target whose line runs through its last position and that is
      slow along it; of another target nothing is promised. */
  ghost function Promised(p: Params, t: Trajectory, c: Pos): iset<real> {
    if Slow(t) && Through(t, c) then Intercepts(p, t, c) else iset{}
  }

  /** Every root, clamped to the initial bracket lo..hi, is between xMin and xMax. */
  ghost predicate Brackets(roots: iset<real>, lo: real, hi: real, xMin: real, xMax: real) {
    forall root | root in roots :: xMin <= Clamp(root, lo, hi) <= xMax
  }

  /** The update of x_min, lines 704-705. */
  function NextMin(t: Trajectory, tmpDsa2: real, dsa2: real, xMin: real, x: real): real {
    if t.m < 0.0 then (if tmpDsa2 < dsa2 then x else xMin) else (if tmpDsa2 > dsa2 then x else xMin)
  }

  /** The update of x_max, lines 706-707. */
  function NextMax(t: Trajectory, tmpDsa2: real, dsa2: real, xMax: real, x: real): real {
    if t.m < 0.0 then (if tmpDsa2 > dsa2 then x else xMax) else (if tmpDsa2 < dsa2 then x else xMax)
  }

  /** The columns that the intercept cannot be to the left of, or to the right of: the sign
      of tmp_dsa - dsa tells, whether or not there is an exact intercept. */
  ghost function Lefts(p: Params, t: Trajectory, c: Pos): iset<real> {
    iset y: real | OnSide(t, c, y) && if t.m < 0.0 then Gap(p, t, c, y) <= 0.0 else Gap(p, t, c, y) >= 0.0
  }

  ghost function Rights(p: Params, t: Trajectory, c: Pos): iset<real> {
    iset y: real | OnSide(t, c, y) && if t.m < 0.0 then Gap(p, t, c, y) >= 0.0 else Gap(p, t, c, y) <= 0.0
  }

  /** The bracket reaches up to every left column of lo..hi, and down to every right one. */
  ghost predicate Squeezes(lefts: iset<real>, rights: iset<real>, lo: real, hi: real, xMin: real, xMax: real) {
    && (forall y | y in lefts && lo <= y <= hi :: y <= xMax)
    && (forall y | y in rights && lo <= y <= hi :: xMin <= y)
  }

  function Scaled(d: real, i: nat): real {
    d * Pow2(i)
  }

  /** x is at most so far to the left of a left column, or to the right of a right one. */
  ghost predicate Squeezed(lefts: iset<real>, rights: iset<real>, lo: real, hi: real, x: real, i: nat) {
    && (forall y | y in lefts && lo <= y <= hi :: Scaled(y - x, i) <= hi - lo)
    && (forall y | y in rights && lo <= y <= hi :: Scaled(x - y, i) <= hi - lo)
  }

  /** Beyond a column where the gap is not positive it is negative. */
  lemma FartherNegative(p: Params, t: Trajectory, c: Pos, y: real, x: real)
    requires Slow(t) && Through(t, c) && OnSide(t, c, y) && OnSide(t, c, x)
    requires Away(t, c, y) < Away(t, c, x) && Gap(p, t, c, y) <= 0.0
    ensures Gap(p, t, c, x) < 0.0
  {
    var a, q, k := SlowTerms(p, t, c);
    GapForm(p, t, c, x, a, q, k);
    GapForm(p, t, c, y, a, q, k);
    GapDecreases(a, q, k, Away(t, c, y), Away(t, c, x));
  }

  lemma LeftStays(p: Params, t: Trajectory, c: Pos, x: real, y: real)
    requires Slow(t) && Through(t, c) && OnSide(t, c, x) && y in Lefts(p, t, c)
    requires if t.m < 0.0 then Gap(p, t, c, x) > 0.0 else Gap(p, t, c, x) < 0.0
    ensures y <= x
  {
    if y > x {
      if t.m < 0.0 { FartherNegative(p, t, c, y, x); } else { FartherNegative(p, t, c, x, y); }
    }
  }

  lemma RightStays(p: Params, t: Trajectory, c: Pos, x: real, y: real)
    requires Slow(t) && Through(t, c) && OnSide(t, c, x) && y in Rights(p, t, c)
    requires if t.m < 0.0 then Gap(p, t, c, x) < 0.0 else Gap(p, t, c, x) > 0.0
    ensures x <= y
  {
    if y < x {
      if t.m < 0.0 { FartherNegative(p, t, c, x, y); } else { FartherNegative(p, t, c, y, x); }
    }
  }

  ghost function PromisedLefts(p: Params, t: Trajectory, c: Pos): iset<real> {
    if Slow(t) && Through(t, c) then Lefts(p, t, c) else iset{}
  }

  ghost function PromisedRights(p: Params, t: Trajectory, c: Pos): iset<real> {
    if Slow(t) && Through(t, c) then Rights(p, t, c) else iset{}
  }

  /** One round keeps the squeeze. */
  lemma RoundSqueezes(p: Params, t: Trajectory, c: Pos, lo: real, hi: real, xMin: real, xMax: real, x: real,
                      tmp: real, dsa: real)
    requires OnSide(t, c, x)
    requires Squeezes(PromisedLefts(p, t, c), PromisedRights(p, t, c), lo, hi, xMin, xMax)
    requires tmp == TmpDsa2(p, t, x) && dsa == Dsa2(t, c, x) && tmp != dsa
    ensures Squeezes(PromisedLefts(p, t, c), PromisedRights(p, t, c), lo, hi,
      NextMin(t, tmp, dsa, xMin, x), NextMax(t, tmp, dsa, xMax, x))
  {
    assert Gap(p, t, c, x) == tmp - dsa;
    var lefts, rights := PromisedLefts(p, t, c), PromisedRights(p, t, c);
    forall y | y in lefts && lo <= y <= hi ensures y <= NextMax(t, tmp, dsa, xMax, x) {
      if NextMax(t, tmp, dsa, xMax, x) != xMax { LeftStays(p, t, c, x, y); }
    }
    forall y | y in rights && lo <= y <= hi ensures NextMin(t, tmp, dsa, xMin, x) <= y {
      if NextMin(t, tmp, dsa, xMin, x) != xMin { RightStays(p, t, c, x, y); }
    }
  }

  lemma HalfBound(d: real, e: real, i: nat, width: real)
    requires d <= e && Scaled(e, i) == width
    ensures Scaled(d, i) <= width
  {
    MulMono(d, e, Pow2(i));
  }

  /** The middle of the bracket is squeezed by half its width. */
  lemma MidIsSqueezed(lefts: iset<real>, rights: iset<real>, lo: real, hi: real, xMin: real, xMax: real, x: real,
                      i: nat)
    requires Squeezes(lefts, rights, lo, hi, xMin, xMax)
    requires Scaled(xMax - x, i) == hi - lo && Scaled(x - xMin, i) == hi - lo
    ensures Squeezed(lefts, rights, lo, hi, x, i)
  {
    forall y | y in lefts && lo <= y <= hi ensures Scaled(y - x, i) <= hi - lo {
      HalfBound(y - x, xMax - x, i, hi - lo);
    }
    forall y | y in rights && lo <= y <= hi ensures Scaled(x - y, i) <= hi - lo {
      HalfBound(x - y, x - xMin, i, hi - lo);
    }
  }

  /** One round keeps the clamped intercept in the bracket. */
  lemma RoundKeepsBracket(p: Params, t: Trajectory, c: Pos, lo: real, hi: real, xMin: real, xMax: real, x: real,
                          tmp: real, dsa: real)
    requires OnSide(t, c, x)
    requires Brackets(Promised(p, t, c), lo, hi, xMin, xMax) && xMin <= x <= xMax && lo <= x <= hi
    requires tmp == TmpDsa2(p, t, x) && dsa == Dsa2(t, c, x) && tmp != dsa
    ensures Brackets(Promised(p, t, c), lo, hi, NextMin(t, tmp, dsa, xMin, x), NextMax(t, tmp, dsa, xMax, x))
  {
    forall root | root in Promised(p, t, c)
      ensures tmp > dsa <==> Away(t, c, x) < Away(t, c, root)
      ensures tmp < dsa <==> Away(t, c, x) > Away(t, c, root)
    {
      GapTells(p, t, c, root, x);
    }
  }

  /** The state after i rounds: the bracket is inside the initial one lo..hi, 2^i
      times narrower, and still holds the clamped intercept. */
  ghost predicate AfterRounds(roots: iset<real>, lo: real, hi: real, xMin: real, xMax: real, i: nat) {
    && (xMax - xMin) * Pow2(i) == hi - lo
    && (if lo <= hi then lo <= xMin <= xMax <= hi && Brackets(roots, lo, hi, xMin, xMax)
        else hi <= xMax <= xMin <= lo)
  }

  /** x is as near to the clamped intercept as i rounds promise. */
  ghost predicate Near(roots: iset<real>, lo: real, hi: real, x: real, i: nat) {
    lo <= hi ==> forall root | root in roots :: Scaled(Abs(x - Clamp(root, lo, hi)), i) <= hi - lo
  }

  /** Halving. */
  lemma HalfWidth(a: real, b: real, x: real, i: nat)
    requires x == (a + b) / 2.0
    ensures (b - x) * Pow2(i + 1) == (b - a) * Pow2(i)
    ensures (x - a) * Pow2(i + 1) == (b - a) * Pow2(i)
  {
    assert b - x == (b - a) / 2.0 && x - a == (b - a) / 2.0;
    Halve(b - a, Pow2(i));
  }

  lemma Halve(d: real, w: real)
    ensures (d / 2.0) * (2.0 * w) == d * w
  {
  }

  /** The halved bracket, whichever half is kept. */
  lemma HalfBracket(roots: iset<real>, lo: real, hi: real, xMin: real, xMax: real, x: real, i: nat)
    requires AfterRounds(roots, lo, hi, xMin, xMax, i) && x == (xMin + xMax) / 2.0
    ensures (xMax - x) * Pow2(i + 1) == hi - lo && (x - xMin) * Pow2(i + 1) == hi - lo
    ensures if lo <= hi then lo <= xMin <= x <= xMax <= hi else hi <= xMax <= x <= xMin <= lo
  {
    HalfWidth(xMin, xMax, x, i);
  }

  /** The middle of the bracket is near whatever the bracket holds. */
  lemma MidIsNear(roots: iset<real>, lo: real, hi: real, xMin: real, xMax: real, x: real, i: nat)
    requires lo <= hi ==> Brackets(roots, lo, hi, xMin, xMax)
    requires x == (xMin + xMax) / 2.0 && Scaled(xMax - x, i) == hi - lo
    ensures Near(roots, lo, hi, x, i)
  {
    if lo <= hi {
      forall root | root in roots ensures Scaled(Abs(x - Clamp(root, lo, hi)), i) <= hi - lo {
        HalfBound(Abs(x - Clamp(root, lo, hi)), xMax - x, i, hi - lo);
      }
    }
  }

  /** One round of the loop. */
  lemma Round(p: Params, t: Trajectory, c: Pos, lo: real, hi: real, xMin: real, xMax: real, x: real, i: nat,
              tmp: real, dsa: real)
    requires lo == InitialMin(p, t, c) as real && hi == InitialMax(p, t, c) as real
    requires AfterRounds(Promised(p, t, c), lo, hi, xMin, xMax, i) && x == (xMin + xMax) / 2.0
    requires tmp == TmpDsa2(p, t, x) && dsa == Dsa2(t, c, x) && tmp != dsa
    ensures AfterRounds(Promised(p, t, c), lo, hi,
      NextMin(t, tmp, dsa, xMin, x), NextMax(t, tmp, dsa, xMax, x), i + 1)
  {
    HalfBracket(Promised(p, t, c), lo, hi, xMin, xMax, x, i);
    if lo <= hi {
      RoundKeepsBracket(p, t, c, lo, hi, xMin, xMax, x, tmp, dsa);
    }
  }

  /** What the loop knows after i rounds. */
  ghost predicate Tracks(p: Params, t: Trajectory, c: Pos, lo: real, hi: real, xMin: real, xMax: real, i: nat) {
    && AfterRounds(Promised(p, t, c), lo, hi, xMin, xMax, i)
    && Squeezes(PromisedLefts(p, t, c), PromisedRights(p, t, c), lo, hi, xMin, xMax)
  }

  /** What it knows of the column of round i. */
  ghost predicate Result(p: Params, t: Trajectory, c: Pos, lo: real, hi: real, x: real, i: nat) {
    && Near(Promised(p, t, c), lo, hi, x, i)
    && Squeezed(PromisedLefts(p, t, c), PromisedRights(p, t, c), lo, hi, x, i)
    && (if lo <= hi then lo <= x <= hi else hi <= x <= lo)
  }

  lemma MidResult(p: Params, t: Trajectory, c: Pos, lo: real, hi: real, xMin: real, xMax: real, x: real, i: nat)
    requires Tracks(p, t, c, lo, hi, xMin, xMax, i) && x == (xMin + xMax) / 2.0
    ensures Result(p, t, c, lo, hi, x, i + 1)
  {
    HalfBracket(Promised(p, t, c), lo, hi, xMin, xMax, x, i);
    MidIsNear(Promised(p, t, c), lo, hi, xMin, xMax, x, i + 1);
    MidIsSqueezed(PromisedLefts(p, t, c), PromisedRights(p, t, c), lo, hi, xMin, xMax, x, i + 1);
  }

  lemma RoundTracks(p: Params, t: Trajectory, c: Pos, lo: real, hi: real, xMin: real, xMax: real, x: real, i: nat,
                    tmp: real, dsa: real)
    requires lo == InitialMin(p, t, c) as real && hi == InitialMax(p, t, c) as real
    requires Tracks(p, t, c, lo, hi, xMin, xMax, i) && x == (xMin + xMax) / 2.0
    requires tmp == TmpDsa2(p, t, x) && dsa == Dsa2(t, c, x) && tmp != dsa
    ensures Tracks(p, t, c, lo, hi, NextMin(t, tmp, dsa, xMin, x), NextMax(t, tmp, dsa, xMax, x), i + 1)
  {
    Round(p, t, c, lo, hi, xMin, xMax, x, i, tmp, dsa);
    if lo <= hi { RoundSqueezes(p, t, c, lo, hi, xMin, xMax, x, tmp, dsa); }
  }

  // ----- the result with the program's sizes -----

  /** Within 624 / 2^100 of every root, or of 8 or 632 if the root is beyond them, and no
      farther than that to the left of the lefts and to the right of the rights. */
  ghost predicate AccurateOver(roots: iset<real>, lefts: iset<real>, rights: iset<real>, x: real) {
    && 8.0 <= x <= 632.0
    && (forall root | root in roots :: Scaled(Abs(x - Clamp(root, 8.0, 632.0)), 100) <= 624.0)
    && (forall y | y in lefts && 8.0 <= y <= 632.0 :: Scaled(y - x, 100) <= 624.0)
    && (forall y | y in rights && 8.0 <= y <= 632.0 :: Scaled(x - y, 100) <= 624.0)
  }

  ghost predicate Accurate(t: Trajectory, c: Pos, x: real) {
    AccurateOver(Intercepts(DEFAULT, t, c), Lefts(DEFAULT, t, c), Rights(DEFAULT, t, c), x)
  }

  lemma ExactSqueezes(p: Params, t: Trajectory, c: Pos, x: real)
    requires Slow(t) && Through(t, c) && Meets(p, t, c, x)
    ensures forall root | root in Intercepts(p, t, c) :: root == x
    ensures forall y | y in Lefts(p, t, c) :: y <= x
    ensures forall y | y in Rights(p, t, c) :: x <= y
  {
    forall root | root in Intercepts(p, t, c) ensures root == x { InterceptUnique(p, t, c, x, root); }
    forall y | y in Lefts(p, t, c) ensures y <= x {
      if y > x { if t.m < 0.0 { FartherNegative(p, t, c, y, x); } else { FartherNegative(p, t, c, x, y); } }
    }
    forall y | y in Rights(p, t, c) ensures x <= y {
      if y < x { if t.m < 0.0 { FartherNegative(p, t, c, x, y); } else { FartherNegative(p, t, c, y, x); } }
    }
  }

  lemma NonPositive(d: real, i: nat)
    requires d <= 0.0
    ensures Scaled(d, i) <= 0.0
  {
    NonNegative(-d, Pow2(i));
  }

  lemma ExactOver(roots: iset<real>, lefts: iset<real>, rights: iset<real>, x: real)
    requires 8.0 <= x <= 632.0 && (forall root | root in roots :: root == x)
    requires (forall y | y in lefts :: y <= x) && (forall y | y in rights :: x <= y)
    ensures AccurateOver(roots, lefts, rights, x)
  {
    forall y | y in lefts ensures Scaled(y - x, 100) <= 624.0 { NonPositive(y - x, 100); }
    forall y | y in rights ensures Scaled(x - y, 100) <= 624.0 { NonPositive(x - y, 100); }
    forall root | root in roots ensures Scaled(Abs(x - Clamp(root, 8.0, 632.0)), 100) <= 624.0 {
      NonPositive(Abs(x - Clamp(root, 8.0, 632.0)), 100);
    }
  }

  /** All rounds were needed: the width of the bracket is at most 624 at first. */
  lemma FullRoundsOver(roots: iset<real>, lefts: iset<real>, rights: iset<real>, x: real, lo: real, hi: real,
                       below: bool)
    requires 8.0 <= lo <= x <= hi <= 632.0
    requires below ==> lo == 8.0 && (forall y | y in roots || y in lefts || y in rights :: y <= hi)
    requires !below ==> hi == 632.0 && (forall y | y in roots || y in lefts || y in rights :: lo <= y)
    requires Near(roots, lo, hi, x, 100) && Squeezed(lefts, rights, lo, hi, x, 100)
    ensures AccurateOver(roots, lefts, rights, x)
  {
    forall root | root in roots ensures Scaled(Abs(x - Clamp(root, 8.0, 632.0)), 100) <= 624.0 {
      assert Clamp(root, lo, hi) == Clamp(root, 8.0, 632.0);
    }
  }

  lemma ResultAccurate(t: Trajectory, c: Pos, x: real, i: nat)
    requires Slow(t) && Through(t, c) && 8 <= c.x <= 632 && 1 <= i <= SAMPLE_LIMIT
    requires Result(DEFAULT, t, c, InitialMin(DEFAULT, t, c) as real, InitialMax(DEFAULT, t, c) as real, x, i)
    requires i < SAMPLE_LIMIT ==> Meets(DEFAULT, t, c, x)
    ensures Accurate(t, c, x)
  {
    if i < SAMPLE_LIMIT {
      ExactSqueezes(DEFAULT, t, c, x);
      ExactOver(Intercepts(DEFAULT, t, c), Lefts(DEFAULT, t, c), Rights(DEFAULT, t, c), x);
    } else {
      FullRoundsOver(Intercepts(DEFAULT, t, c), Lefts(DEFAULT, t, c), Rights(DEFAULT, t, c), x,
                     InitialMin(DEFAULT, t, c) as real, InitialMax(DEFAULT, t, c) as real, t.m < 0.0);
    }
  }

  lemma {:induction false} Pow2Large(n: nat)
    requires n >= 20
    ensures Pow2(n) >= 1000000.0
  {
    if n > 20 {
      Pow2Large(n - 1);
    } else {
      assert Pow2(5) == 32.0;
      assert Pow2(10) == 1024.0;
      assert Pow2(15) == 32768.0;
      assert Pow2(20) == 1048576.0;
    }
  }

  lemma SmallDistance(d: real)
    requires Scaled(d, 100) <= 624.0
    ensures d <= 0.001
  {
    Pow2Large(100);
    if d > 0.001 { MulMono(1000000.0, Pow2(100), d); }
  }

  lemma AccurateWithin(roots: iset<real>, lefts: iset<real>, rights: iset<real>, x: real)
    requires AccurateOver(roots, lefts, rights, x)
    ensures forall y | y in roots && 8.0 <= y <= 632.0 :: Abs(x - y) <= 0.001
    ensures forall y | y in lefts && 8.0 <= y <= 632.0 :: y - 0.001 <= x
    ensures forall y | y in rights && 8.0 <= y <= 632.0 :: x <= y + 0.001
  {
    forall y | y in roots && 8.0 <= y <= 632.0 ensures Abs(x - y) <= 0.001 {
      SmallDistance(Abs(x - Clamp(y, 8.0, 632.0)));
    }
    forall y | y in lefts && 8.0 <= y <= 632.0 ensures y - 0.001 <= x { SmallDistance(y - x); }
    forall y | y in rights && 8.0 <= y <= 632.0 ensures x <= y + 0.001 { SmallDistance(x - y); }
  }

  /** A target that is met between the columns 8 and 632 is met within a thousandth of a
      column of the result. */
  lemma ResultIsIntercept(t: Trajectory, c: Pos, x: real, root: real)
    requires Accurate(t, c, x) && Meets(DEFAULT, t, c, root) && 8.0 <= root <= 632.0
    ensures Abs(x - root) <= 0.001
  {
    AccurateWithin(Intercepts(DEFAULT, t, c), Lefts(DEFAULT, t, c), Rights(DEFAULT, t, c), x);
    assert root in Intercepts(DEFAULT, t, c);
  }

  /** A change of the sign of tmp_dsa - dsa between two columns l <= r puts the result
      between them, to a thousandth of a column. */
  lemma ResultIsBetween(t: Trajectory, c: Pos, x: real, l: real, r: real)
    requires Accurate(t, c, x) && 8.0 <= l <= r <= 632.0 && OnSide(t, c, l) && OnSide(t, c, r)
    requires if t.m < 0.0 then Gap(DEFAULT, t, c, l) <= 0.0 <= Gap(DEFAULT, t, c, r)
             else Gap(DEFAULT, t, c, l) >= 0.0 >= Gap(DEFAULT, t, c, r)
    ensures l - 0.001 <= x <= r + 0.001
  {
    AccurateWithin(Intercepts(DEFAULT, t, c), Lefts(DEFAULT, t, c), Rights(DEFAULT, t, c), x);
    assert l in Lefts(DEFAULT, t, c) && r in Rights(DEFAULT, t, c);
  }

  /** get_expected_position_x, lines 685-712. EPSILON is the integer division
      1 / 50, that is 0: the loop stops on an exact hit or after 100 rounds. */
  method GetExpectedPositionX(p: Params, t: Trajectory, c: Pos) returns (column: int, x: real, i: nat)
    ensures column == Truncate(x) && 1 <= i <= SAMPLE_LIMIT
    // whatever the bracket, the result stays between its ends
    ensures var lo, hi := InitialMin(p, t, c), InitialMax(p, t, c);
      if lo <= hi then lo <= column <= hi else hi <= column <= lo
    // an early stop is an exact hit
    ensures i < SAMPLE_LIMIT && InitialMin(p, t, c) <= InitialMax(p, t, c) ==> Meets(p, t, c, x)
    // for a slow target, i rounds divide the distance from the clamped intercept by 2^i
    ensures Slow(t) && Through(t, c) ==>
      Near(Intercepts(p, t, c), InitialMin(p, t, c) as real, InitialMax(p, t, c) as real, x, i)
    // the same without an exact intercept: the signs at two columns squeeze the result
    ensures Slow(t) && Through(t, c) && InitialMin(p, t, c) <= InitialMax(p, t, c) ==>
      Squeezed(Lefts(p, t, c), Rights(p, t, c), InitialMin(p, t, c) as real, InitialMax(p, t, c) as real, x, i)
    // with the program's sizes the result is the intercept, or the limit it is beyond
    ensures p == DEFAULT && Slow(t) && Through(t, c) && 8 <= c.x <= 632 ==> Accurate(t, c, x)
    ensures x >= 0.0 ==> column as real <= x < column as real + 1.0
  {
    var xMin := if t.m < 0.0 then LeftLimit(p) as real else c.x as real;
    var xMax := if t.m < 0.0 then c.x as real else RightLimit(p) as real;
    i := 0;
    ghost var lo, hi := xMin, xMax;
    while true
      invariant 0 <= i < SAMPLE_LIMIT
      invariant lo == InitialMin(p, t, c) as real && hi == InitialMax(p, t, c) as real
      invariant Tracks(p, t, c, lo, hi, xMin, xMax, i)
      decreases SAMPLE_LIMIT - i
    {
      x := (xMin + xMax) / 2.0;
      var dsa2 := Dsa2(t, c, x);
      var tmpDsa2 := TmpDsa2(p, t, x);
      MidResult(p, t, c, lo, hi, xMin, xMax, x, i);
      if tmpDsa2 != dsa2 { RoundTracks(p, t, c, lo, hi, xMin, xMax, x, i, tmpDsa2, dsa2); }
      xMin, xMax := NextMin(t, tmpDsa2, dsa2, xMin, x), NextMax(t, tmpDsa2, dsa2, xMax, x);
      i := i + 1;
      if !(tmpDsa2 != dsa2 && i < SAMPLE_LIMIT) {
        assert i < SAMPLE_LIMIT ==> Gap(p, t, c, x) == 0.0;
        break;
      }
    }
    column := Truncate(x);
    Finish(p, t, c, column, x, i);
  }

  /** What the column of the last round is to the caller. */
  lemma Finish(p: Params, t: Trajectory, c: Pos, column: int, x: real, i: nat)
    requires 1 <= i <= SAMPLE_LIMIT && column == Truncate(x)
    requires Result(p, t, c, InitialMin(p, t, c) as real, InitialMax(p, t, c) as real, x, i)
    requires i < SAMPLE_LIMIT ==> Gap(p, t, c, x) == 0.0
    ensures var lo, hi := InitialMin(p, t, c), InitialMax(p, t, c);
      if lo <= hi then lo <= column <= hi else hi <= column <= lo
    ensures i < SAMPLE_LIMIT && InitialMin(p, t, c) <= InitialMax(p, t, c) ==> Meets(p, t, c, x)
    ensures p == DEFAULT && Slow(t) && Through(t, c) && 8 <= c.x <= 632 ==> Accurate(t, c, x)
  {
    var l, h := InitialMin(p, t, c), InitialMax(p, t, c);
    TruncateBetween(x, if l <= h then l else h, if l <= h then h else l);
    if p == DEFAULT && Slow(t) && Through(t, c) && 8 <= c.x <= 632 { ResultAccurate(t, c, x, i); }
  }

  /** Truncation does not leave an interval with integer ends. */
  lemma TruncateBetween(x: real, lo: int, hi: int)
    requires lo as real <= x <= hi as real
    ensures lo <= Truncate(x) <= hi
  {
  }

  // ----- the start column of a defender -----

  /** get_line_m, lines 638-650. */
  function LineM(a: Pos, b: Pos): real {
    if b.x != a.x then (b.y - a.y) as real / (b.x - a.x) as real else 0.0
  }

  /** get_line_b, lines 659-662. */
  function LineB(m: real, a: Pos): real {
    -m * a.x as real + a.y as real
  }

  /** The line computed from two positions in different columns runs through both. */
  lemma LineThroughBoth(a: Pos, b: Pos, speed: real)
    requires a.x != b.x
    ensures var m := LineM(a, b); var t := Trajectory(m, LineB(m, a), speed);
      Through(t, a) && Through(t, b)
  {
    var m := LineM(a, b);
    var dx := (b.x - a.x) as real;
    assert dx != 0.0 && m * dx == (b.y - a.y) as real;
    assert m * b.x as real - m * a.x as real == m * dx;
  }

  /** Both ends of the searched columns are spawn cells in the window that are no wall
      or goal. */
  predicate LimitsClear(p: Params) {
    && InBorders(p, DefSpawn(p, LeftLimit(p))) && !Static(p, DefSpawn(p, LeftLimit(p)))
    && InBorders(p, DefSpawn(p, RightLimit(p))) && !Static(p, DefSpawn(p, RightLimit(p)))
  }

  /** Every column that get_start_x_position can return for a target seen inside is
      clear. */
  lemma ColumnsClear(p: Params, a: Pos, column: int)
    requires Sound(p) && LimitsClear(p) && Inside(p, a)
    requires a.x <= column <= RightLimit(p) || LeftLimit(p) <= column <= a.x
      || RightLimit(p) <= column <= a.x || a.x <= column <= LeftLimit(p)
    ensures InBorders(p, DefSpawn(p, column)) && !Static(p, DefSpawn(p, column))
  {
  }

  /** What the column for the sampled positions a and b may be, whatever the speed: the
      column of both, or one of the searched bracket. */
  predicate Computed(p: Params, a: Pos, b: Pos, column: int) {
    if a.x == b.x then column == a.x
    else
      var t := Trajectory(LineM(a, b), 0.0, 0.0);
      var lo, hi := InitialMin(p, t, b), InitialMax(p, t, b);
      if lo <= hi then lo <= column <= hi else hi <= column <= lo
  }

  /** A computed column is clear if both positions are inside. */
  lemma ComputedClear(p: Params, a: Pos, b: Pos, column: int)
    requires Sound(p) && LimitsClear(p) && Inside(p, a) && Inside(p, b) && Computed(p, a, b, column)
    ensures InBorders(p, DefSpawn(p, column)) && !Static(p, DefSpawn(p, column))
  {
    ColumnsClear(p, if a.x == b.x then a else b, column);
  }

  lemma DefaultLimitsClear()
    ensures LimitsClear(DEFAULT)
  {
  }

  /** get_start_x_position, lines 795-810, for the two sampled positions and the
      measured speed. */
  method GetStartXPosition(p: Params, a: Pos, b: Pos, speed: real) returns (column: int, ghost x: real, ghost i: nat)
    ensures a.x == b.x ==> column == a.x
    ensures a.x != b.x ==>
      var m := LineM(a, b); var t := Trajectory(m, LineB(m, a), speed);
      var lo, hi := InitialMin(p, t, b), InitialMax(p, t, b);
      && Through(t, a) && Through(t, b)
      && column == Truncate(x) && 1 <= i <= SAMPLE_LIMIT
      && (Slow(t) ==> Near(Intercepts(p, t, b), lo as real, hi as real, x, i))
      && (i < SAMPLE_LIMIT && lo <= hi ==> Meets(p, t, b, x))
    ensures p == DEFAULT && a.x != b.x && 8 <= b.x <= 632 ==>
      var m := LineM(a, b); var t := Trajectory(m, LineB(m, a), speed);
      Slow(t) ==> Accurate(t, b, x) && column as real <= x < column as real + 1.0
    ensures Computed(p, a, b, column)
    // a target last seen inside gives a defender a spawn cell that is no wall and no goal
    ensures Sound(p) && LimitsClear(p) && Inside(p, a) && Inside(p, b) ==>
      InBorders(p, DefSpawn(p, column)) && !Static(p, DefSpawn(p, column))
  {
    column := a.x;
    x, i := 0.0, 0;
    if a.x != b.x {
      var m := LineM(a, b);
      var t := Trajectory(m, LineB(m, a), speed);
      LineThroughBoth(a, b, speed);
      column, x, i := GetExpectedPositionX(p, t, b);
    }
    if Sound(p) && LimitsClear(p) && Inside(p, a) && Inside(p, b) {
      ComputedClear(p, a, b, column);
    }
  }
}
