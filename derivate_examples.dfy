/** The objectives of the derivative test suite, and what the finite differences give on
    them over the reals. */
module DerivateExamples {
  import opened Ranges
  import opened Operations
  import opened Derivate

  /** `x * (x - x0)` of the first coordinate (the test's `functor`); an empty point maps
      to 0. */
  function Parabola(x0: real): Objective
  {
    (s: seq<real>) => if |s| > 0 then s[0] * (s[0] - x0) else 0.0
  }

  /** `x^2 + (y^4 - y^2)` of the first two coordinates (the test's `functor_nd`); a point
      with fewer than two coordinates maps to 0. */
  function QuarticXY(): Objective
  {
    (s: seq<real>) => if |s| > 1 then s[0] * s[0] + (s[1] * s[1] * s[1] * s[1] - s[1] * s[1]) else 0.0
  }

  /** The first coordinate. */
  function Identity(): Objective
  {
    (s: seq<real>) => if |s| > 0 then s[0] else 0.0
  }

  /** The exact derivative of the parabola: `2x - x0`. */
  function ParabolaSlope(x0: real, x: real): real { 2.0 * x - x0 }

  lemma SquareShift(x: real, b: real, s: real)
    ensures (x + s) * (x + s - b) == Quartic(x * (x - b), ParabolaSlope(b, x), 1.0, 0.0, 0.0, s)
  {
  }

  lemma FourthShift(y: real, s: real)
    ensures (y + s) * (y + s) * (y + s) * (y + s) - (y + s) * (y + s)
         == Quartic(y * y * y * y - y * y, 4.0 * y * y * y - 2.0 * y, 6.0 * y * y - 1.0, 4.0 * y, 1.0, s)
  {
    var u := y + s;
    assert u * u == y * y + 2.0 * y * s + s * s;
    assert u * u * u == y * y * y + 3.0 * y * y * s + 3.0 * y * (s * s) + s * s * s;
    assert u * u * u * u == y * y * y * y + 4.0 * y * y * y * s + 6.0 * y * y * (s * s)
                          + 4.0 * y * (s * s * s) + s * s * s * s;
  }

  /** Along axis 0 the parabola is a quadratic in the offset, with slope `2x - x0`. */
  lemma ParabolaAlongAxis(x0: real, r: ConstRange, s: real)
    requires r.Valid() && 0 < r.Size()
    ensures AxisValue(Parabola(x0), r, 0, s)
         == Quartic(r.At(0) * (r.At(0) - x0), ParabolaSlope(x0, r.At(0)), 1.0, 0.0, 0.0, s)
  {
    var p := r.Contents()[0 := r.At(0) + s];
    assert p[0] == r.At(0) + s;
    SquareShift(r.At(0), x0, s);
  }

  /** On the parabola the five-point partial derivative is exactly `2x - x0`, for every
      step `h`. */
  lemma ParabolaDerivative(x0: real, r: ConstRange, h: real)
    requires r.Valid() && 0 < r.Size() && h != 0.0
    ensures DeriveByAxis(Parabola(x0), r, 0, h) == ParabolaSlope(x0, r.At(0))
  {
    var x := r.At(0);
    ParabolaAlongAxis(x0, r, -2.0 * h);
    ParabolaAlongAxis(x0, r, -h);
    ParabolaAlongAxis(x0, r, h);
    ParabolaAlongAxis(x0, r, 2.0 * h);
    DeriveByAxisExact(Parabola(x0), r, 0, h, x * (x - x0), ParabolaSlope(x0, x), 1.0, 0.0, 0.0);
  }

  /** The points of the one-dimensional test (with `x0 = 2`): -2 at 0, 0 at 1, 18 at 10. */
  lemma Derivate1DAtZero(h: real)
    requires h != 0.0
    ensures DeriveByAxis(Parabola(2.0), OfContainer([0.0]), 0, h) == -2.0
  {
    ParabolaDerivativeAt(2.0, 0.0, h);
  }

  lemma Derivate1DAtOne(h: real)
    requires h != 0.0
    ensures DeriveByAxis(Parabola(2.0), OfContainer([1.0]), 0, h) == 0.0
  {
    ParabolaDerivativeAt(2.0, 1.0, h);
  }

  lemma Derivate1DAtTen(h: real)
    requires h != 0.0
    ensures DeriveByAxis(Parabola(2.0), OfContainer([10.0]), 0, h) == 18.0
  {
    ParabolaDerivativeAt(2.0, 10.0, h);
  }

  lemma ParabolaDerivativeAt(x0: real, x: real, h: real)
    requires h != 0.0
    ensures DeriveByAxis(Parabola(x0), OfContainer([x]), 0, h) == ParabolaSlope(x0, x)
  {
    ParabolaDerivative(x0, OfContainer([x]), h);
  }

  /** `shifted_x` of `(1, 1)` on axis 1 by 277 shows `(1, 278)`. */
  lemma Shifted2D()
    ensures ShiftedX(OfContainer([1.0, 1.0]), 1, 277.0).Contents() == [1.0, 278.0]
  {
    var r := OfContainer([1.0, 1.0]);
    assert r.Contents()[1 := r.At(1) + 277.0] == [1.0, 278.0];
  }

  /** The exact partial derivatives of the quartic: `2x` and `4y^3 - 2y`. */
  function SlopeX(x: real): real { 2.0 * x }

  function SlopeY(y: real): real { 4.0 * y * y * y - 2.0 * y }

  /** Along axis 0 the quartic is `x^2` plus a constant. */
  lemma QuarticAlongAxis0(r: ConstRange, s: real)
    requires r.Valid() && 1 < r.Size()
    ensures AxisValue(QuarticXY(), r, 0, s) == Quartic(r.At(0) * r.At(0)
      + (r.At(1) * r.At(1) * r.At(1) * r.At(1) - r.At(1) * r.At(1)), SlopeX(r.At(0)), 1.0, 0.0, 0.0, s)
  {
    var p := r.Contents()[0 := r.At(0) + s];
    assert p[0] == r.At(0) + s && p[1] == r.At(1);
    SquareShift(r.At(0), 0.0, s);
  }

  /** Along axis 1 the quartic is `y^4 - y^2` plus a constant. */
  lemma QuarticAlongAxis1(r: ConstRange, s: real)
    requires r.Valid() && 1 < r.Size()
    ensures AxisValue(QuarticXY(), r, 1, s) == Quartic(r.At(0) * r.At(0)
      + (r.At(1) * r.At(1) * r.At(1) * r.At(1) - r.At(1) * r.At(1)),
      SlopeY(r.At(1)), 6.0 * r.At(1) * r.At(1) - 1.0, 4.0 * r.At(1), 1.0, s)
  {
    var p := r.Contents()[1 := r.At(1) + s];
    assert p[0] == r.At(0) && p[1] == r.At(1) + s;
    FourthShift(r.At(1), s);
  }

  /** The five-point partial derivative of the quartic along axis 0 is exactly `2x`. */
  lemma QuarticPartial0(r: ConstRange, h: real)
    requires r.Valid() && 1 < r.Size() && h != 0.0
    ensures DeriveByAxis(QuarticXY(), r, 0, h) == SlopeX(r.At(0))
  {
    var x, y := r.At(0), r.At(1);
    QuarticAlongAxis0(r, -2.0 * h);
    QuarticAlongAxis0(r, -h);
    QuarticAlongAxis0(r, h);
    QuarticAlongAxis0(r, 2.0 * h);
    DeriveByAxisExact(QuarticXY(), r, 0, h, x * x + (y * y * y * y - y * y), SlopeX(x), 1.0, 0.0, 0.0);
  }

  /** The five-point partial derivative of the quartic along axis 1 is exactly `4y^3 - 2y`. */
  lemma QuarticPartial1(r: ConstRange, h: real)
    requires r.Valid() && 1 < r.Size() && h != 0.0
    ensures DeriveByAxis(QuarticXY(), r, 1, h) == SlopeY(r.At(1))
  {
    var x, y := r.At(0), r.At(1);
    QuarticAlongAxis1(r, -2.0 * h);
    QuarticAlongAxis1(r, -h);
    QuarticAlongAxis1(r, h);
    QuarticAlongAxis1(r, 2.0 * h);
    DeriveByAxisExact(QuarticXY(), r, 1, h, x * x + (y * y * y * y - y * y),
      SlopeY(y), 6.0 * y * y - 1.0, 4.0 * y, 1.0);
  }

  /** Both partial derivatives of the quartic at the point `(x, y)`. */
  lemma QuarticPartialsAt(x: real, y: real, h: real)
    requires h != 0.0
    ensures DeriveByAxis(QuarticXY(), OfContainer([x, y]), 0, h) == SlopeX(x)
    ensures DeriveByAxis(QuarticXY(), OfContainer([x, y]), 1, h) == SlopeY(y)
  {
    QuarticPartial0(OfContainer([x, y]), h);
    QuarticPartial1(OfContainer([x, y]), h);
  }

  /** The partial derivatives of the quartic at `(1, 2)`: 2 and 28. */
  lemma DerivateByAxisND(h: real)
    requires h != 0.0
    ensures DeriveByAxis(QuarticXY(), OfContainer([1.0, 2.0]), 0, h) == 2.0
    ensures DeriveByAxis(QuarticXY(), OfContainer([1.0, 2.0]), 1, h) == 28.0
  {
    QuarticPartialsAt(1.0, 2.0, h);
  }

  /** `auto_grad` of the quartic at `(x, y)` is its exact gradient. */
  method QuarticGradient(x: real, y: real, h: real) returns (g: seq<real>)
    requires h != 0.0
    ensures g == [SlopeX(x), SlopeY(y)]
  {
    g := AutoGrad(QuarticXY(), OfContainer([x, y]), h);
    QuarticPartialsAt(x, y, h);
  }

  /** The gradients of the two-dimensional test: `(2, 2)` at `(1, 1)` and `(6, 28)` at `(3, 2)`. */
  method Derivate2D(h: real) returns (g0: seq<real>, g1: seq<real>)
    requires h != 0.0
    ensures g0 == [2.0, 2.0] && g1 == [6.0, 28.0]
  {
    g0 := QuarticGradient(1.0, 1.0, h);
    g1 := QuarticGradient(3.0, 2.0, h);
  }

  /** The point `(x, y)` as a view. */
  function Point(x: real, y: real): (v: View)
    ensures v.Valid() && v.Size() == 2 && v.Contents() == [x, y]
  {
    Const(OfContainer([x, y]))
  }

  lemma QuarticScale(A: real, B: real, C: real, D: real, E: real, k: real, s: real)
    ensures Quartic(A, B, C, D, E, k * s) == Quartic(A, B * k, C * (k * k), D * (k * k * k), E * (k * k * k * k), s)
  {
    assert (k * s) * (k * s) == (k * k) * (s * s);
    assert (k * s) * (k * s) * (k * s) == (k * k * k) * (s * s * s);
    assert (k * s) * (k * s) * (k * s) * (k * s) == (k * k * k * k) * (s * s * s * s);
  }

  lemma QuarticAdd(A: real, B: real, C: real, D: real, E: real, A': real, B': real, C': real, D': real, E': real, s: real)
    ensures Quartic(A, B, C, D, E, s) + Quartic(A', B', C', D', E', s) == Quartic(A + A', B + B', C + C', D + D', E + E', s)
  {
    assert B * s + B' * s == (B + B') * s;
    assert C * (s * s) + C' * (s * s) == (C + C') * (s * s);
    assert D * (s * s * s) + D' * (s * s * s) == (D + D') * (s * s * s);
    assert E * (s * s * s * s) + E' * (s * s * s * s) == (E + E') * (s * s * s * s);
  }

  /** The exact derivative of the quartic at `(x, y)` along `(dx, dy)`: the gradient
      dotted with the direction. */
  function SlopeAlong(x: real, y: real, dx: real, dy: real): real
  {
    SlopeX(x) * dx + SlopeY(y) * dy
  }

  /** The point `(x, y) + s (dx, dy)`. */
  lemma LinePoint(x: real, y: real, dx: real, dy: real, s: real)
    ensures Translate(Point(x, y).Contents(), Point(dx, dy).Contents(), s) == [x + s * dx, y + s * dy]
  {
    var p, d := Point(x, y).Contents(), Point(dx, dy).Contents();
    assert p == [x, y] && d == [dx, dy];
    var t := Translate(p, d, s);
    assert t[0] == x + Multiply(s, dx) == x + s * dx;
    assert t[1] == y + Multiply(s, dy) == y + s * dy;
    assert t == [t[0], t[1]];
  }

  lemma SquareOnLine(x: real, dx: real, s: real)
    ensures (x + s * dx) * (x + s * dx) == Quartic(x * x, SlopeX(x) * dx, dx * dx, 0.0, 0.0, s)
  {
  }

  lemma FourthOnLine(y: real, dy: real, s: real)
    ensures (y + s * dy) * (y + s * dy) * (y + s * dy) * (y + s * dy) - (y + s * dy) * (y + s * dy)
         == Quartic(y * y * y * y - y * y, SlopeY(y) * dy, (6.0 * y * y - 1.0) * (dy * dy),
                    4.0 * y * (dy * dy * dy), 1.0 * (dy * dy * dy * dy), s)
  {
    assert s * dy == dy * s;
    FourthShift(y, dy * s);
    QuarticScale(y * y * y * y - y * y, 4.0 * y * y * y - 2.0 * y, 6.0 * y * y - 1.0, 4.0 * y, 1.0, dy, s);
  }

  /** `x^2 + (y^4 - y^2)` at `(x, y) + s (dx, dy)` as a polynomial in `s`. */
  lemma QuarticOnLine(x: real, y: real, dx: real, dy: real, s: real)
    ensures (x + s * dx) * (x + s * dx)
            + ((y + s * dy) * (y + s * dy) * (y + s * dy) * (y + s * dy) - (y + s * dy) * (y + s * dy))
         == Quartic(x * x + (y * y * y * y - y * y), SlopeAlong(x, y, dx, dy),
                    dx * dx + (6.0 * y * y - 1.0) * (dy * dy), 4.0 * y * (dy * dy * dy), 1.0 * (dy * dy * dy * dy), s)
  {
    SquareOnLine(x, dx, s);
    FourthOnLine(y, dy, s);
    QuarticAdd(x * x, SlopeX(x) * dx, dx * dx, 0.0, 0.0,
      y * y * y * y - y * y, SlopeY(y) * dy, (6.0 * y * y - 1.0) * (dy * dy), 4.0 * y * (dy * dy * dy), 1.0 * (dy * dy * dy * dy), s);
  }

  /** On the line `(x, y) + s (dx, dy)` the quartic is a quartic polynomial in `s`. */
  lemma QuarticAlongLine(x: real, y: real, dx: real, dy: real, s: real)
    ensures DirectionValue(QuarticXY(), Point(x, y), Point(dx, dy), s)
         == Quartic(x * x + (y * y * y * y - y * y), SlopeAlong(x, y, dx, dy),
                    dx * dx + (6.0 * y * y - 1.0) * (dy * dy), 4.0 * y * (dy * dy * dy), 1.0 * (dy * dy * dy * dy), s)
  {
    LinePoint(x, y, dx, dy, s);
    QuarticOnLine(x, y, dx, dy, s);
  }

  /** The five-point directional derivative of the quartic is exactly the gradient dotted
      with the direction, for every point, direction and `h`. */
  lemma QuarticDirectional(x: real, y: real, dx: real, dy: real, h: real)
    requires h != 0.0
    ensures DeriveByDirection(QuarticXY(), Point(x, y), Point(dx, dy), h) == SlopeAlong(x, y, dx, dy)
  {
    QuarticAlongLine(x, y, dx, dy, -2.0 * h);
    QuarticAlongLine(x, y, dx, dy, -h);
    QuarticAlongLine(x, y, dx, dy, h);
    QuarticAlongLine(x, y, dx, dy, 2.0 * h);
    DeriveByDirectionExact(QuarticXY(), Point(x, y), Point(dx, dy), h, x * x + (y * y * y * y - y * y),
      SlopeAlong(x, y, dx, dy), dx * dx + (6.0 * y * y - 1.0) * (dy * dy), 4.0 * y * (dy * dy * dy), 1.0 * (dy * dy * dy * dy));
  }

  // Finite differences that are not derivatives: the three-point entry points as written.

  /** The point `x` moved along axis 0 by `s` is `x + s`. */
  lemma IdentityAlongAxis(x: real, s: real)
    ensures AxisValue(Identity(), OfContainer([x]), 0, s) == x + s
  {
    var r := OfContainer([x]);
    assert r.Contents()[0 := r.At(0) + s] == [x + s];
  }

  /** On the identity, the as-written three-point partial derivative at `x` is
      `-(7x + h) / (12h)` rather than 1. */
  lemma ThreePointAxisDefect(x: real, h: real)
    requires h != 0.0
    ensures DeriveByAxis3(Identity(), OfContainer([x]), 0, h) == -(7.0 * x + h) / (12.0 * h)
  {
    var r := OfContainer([x]);
    IdentityAlongAxis(x, -h);
    IdentityAlongAxis(x, 0.0);
    assert AxisValue(Identity(), r, 0, -h) - 8.0 * AxisValue(Identity(), r, 0, 0.0) == -(7.0 * x + h);
  }

  /** On the identity the corrected three-point and the five-point partial derivatives are
      both 1. */
  lemma IdentityAxisDerivatives(x: real, h: real)
    requires h != 0.0
    ensures CorrectedDeriveByAxis3(Identity(), OfContainer([x]), 0, h) == 1.0
    ensures DeriveByAxis(Identity(), OfContainer([x]), 0, h) == 1.0
  {
    var r := OfContainer([x]);
    forall s: real
      ensures AxisValue(Identity(), r, 0, s) == Quartic(x, 1.0, 0.0, 0.0, 0.0, s)
    {
      IdentityAlongAxis(x, s);
    }
    CorrectedDeriveByAxis3Exact(Identity(), r, 0, h, x, 1.0, 0.0);
    DeriveByAxisExact(Identity(), r, 0, h, x, 1.0, 0.0, 0.0, 0.0);
  }

  /** The smallest witness: at `x = 0` with `h = 1` the as-written three-point partial
      derivative of the identity is `-1/12`. */
  lemma ThreePointAxisAtOrigin()
    ensures DeriveByAxis3(Identity(), OfContainer([0.0]), 0, 1.0) == -1.0 / 12.0
  {
    ThreePointAxisDefect(0.0, 1.0);
  }

  /** The point `x` moved along the direction `1` by `s` is `x + s`. */
  lemma IdentityAlongUnit(x: real, s: real)
    ensures DirectionValue(Identity(), Const(OfContainer([x])), Const(OfContainer([1.0])), s) == x + s
  {
    var t := Translate(Const(OfContainer([x])).Contents(), Const(OfContainer([1.0])).Contents(), s);
    assert t[0] == x + s * 1.0;
  }

  /** Along a line on which the objective has slope `B`, the as-written three-point
      directional derivative is the one-sided quotient over a `2h` base: `B / 2`. */
  lemma ThreePointDirectionHalves(func: Objective, r: View, dir: View, h: real, A: real, B: real)
    requires r.Valid() && dir.Valid() && r.Size() == dir.Size() && h != 0.0
    requires DirectionValue(func, r, dir, -h) == A - B * h
    requires DirectionValue(func, r, dir, 0.0) == A
    ensures DeriveByDirection3(func, r, dir, h) == B / 2.0
  {
    SameQuotient(DirectionValue(func, r, dir, 0.0) - DirectionValue(func, r, dir, -h), B * h, 2.0 * h);
    HalfOf(B, h);
  }

  lemma SameQuotient(a: real, b: real, m: real)
    requires a == b && m != 0.0
    ensures a / m == b / m
  {
  }

  /** A rise of `B h` over a base of `2h` is `B / 2`. */
  lemma HalfOf(B: real, h: real)
    requires h != 0.0
    ensures (B * h) / (2.0 * h) == B / 2.0
  {
    assert B * h == (2.0 * h) * (B / 2.0);
  }

  /** On the identity along the direction `1` the as-written three-point directional
      derivative is `1/2`; the corrected one is 1. */
  lemma ThreePointDirectionDefect(x: real, h: real)
    requires h != 0.0
    ensures DeriveByDirection3(Identity(), Const(OfContainer([x])), Const(OfContainer([1.0])), h) == 0.5
    ensures CorrectedDeriveByDirection3(Identity(), Const(OfContainer([x])), Const(OfContainer([1.0])), h) == 1.0
  {
    var r, dir := Const(OfContainer([x])), Const(OfContainer([1.0]));
    IdentityAlongUnit(x, -h);
    IdentityAlongUnit(x, 0.0);
    IdentityAlongUnit(x, h);
    ThreePointDirectionHalves(Identity(), r, dir, h, x, 1.0);
    CorrectedDeriveByDirection3Exact(Identity(), r, dir, h, x, 1.0, 0.0);
  }

  /** The corrected three-point partial derivative is exact on the parabola. */
  lemma CorrectedParabolaDerivative(x0: real, r: ConstRange, h: real)
    requires r.Valid() && 0 < r.Size() && h != 0.0
    ensures CorrectedDeriveByAxis3(Parabola(x0), r, 0, h) == ParabolaSlope(x0, r.At(0))
  {
    var x := r.At(0);
    ParabolaAlongAxis(x0, r, -h);
    ParabolaAlongAxis(x0, r, h);
    CorrectedDeriveByAxis3Exact(Parabola(x0), r, 0, h, x * (x - x0), ParabolaSlope(x0, x), 1.0);
  }
}
