/** Finite-difference derivatives on views: partial derivatives along one axis (the point
    seen through a substitution view), directional derivatives (the point seen through
    `sum(point, scalar_mul(s, direction))`) and the gradient assembled axis by axis.
    Arithmetic is over exact reals. */
module Derivate {
  import opened Ranges
  import opened Operations

  /** The caller's objective: a pure, total function of the values a view shows. */
  type Objective = seq<real> -> real

  /** A stencil table (`derivative_props<pn>`): `pn == |coeffs|` numerator coefficients and
      one denominator multiplier; the offsets come from `Shifts`. */
  datatype DerivativeProps = DerivativeProps(coeffs: seq<real>, multiplier: real)
  {
    /** `shifts(h)`, specialised for 3 and 5 points: offset `k` is `(k - pn/2) * h`. */
    function Shifts(h: real): (s: seq<real>)
      requires |coeffs| == 3 || |coeffs| == 5
      ensures |s| == |coeffs|
      ensures forall k :: 0 <= k < |s| ==> s[k] == (k - |coeffs| / 2) as real * h
    {
      if |coeffs| == 3 then [-h, 0.0, h] else [-2.0 * h, -h, 0.0, h, 2.0 * h]
    }
  }

  /** `constants::five`: the fourth-order central difference. */
  const Five := DerivativeProps([1.0, -8.0, 0.0, 8.0, -1.0], 12.0)

  /** `constants::three`: the initialiser `{-1., 1.}` of a three-element array, so the last
      coefficient is 0. */
  const Three := DerivativeProps([-1.0, 1.0, 0.0], 2.0)

  /** `shifted_x(r, d, h)`: the point with coordinate `d` moved by `h`, as a substitution
      view over the caller's window. */
  function ShiftedX(r: ConstRange, d: nat, h: real): (s: SubsRange)
    requires r.Valid() && d < r.Size()
    ensures s.Valid() && s.base == r && s.Size() == r.Size()
    ensures s.At(d) == r.At(d) + h
    ensures forall j :: 0 <= j < s.Size() && j != d ==> s.At(j) == r.At(j)
    ensures s.Contents() == r.Contents()[d := r.At(d) + h]
  {
    SubsRange(r, d, r.At(d) + h)
  }

  /** The objective at the point whose coordinate `d` is moved by `s` (the other
      coordinates as in `r`). */
  function AxisValue(func: Objective, r: ConstRange, d: nat, s: real): real
    requires r.Valid() && d < r.Size()
  {
    func(r.Contents()[d := r.At(d) + s])
  }

  /** The objective evaluated on the substitution view `shifted_x(r, d, s)`. */
  function EvalShiftedX(func: Objective, r: ConstRange, d: nat, s: real): (v: real)
    requires r.Valid() && d < r.Size()
    ensures v == AxisValue(func, r, d, s)
  {
    func(ShiftedX(r, d, s).Contents())
  }

  /** `values_by_axis`: one evaluation of the objective per offset, each on its own
      substitution view; the caller's window is never changed. */
  function ValuesByAxis(shifts: seq<real>, func: Objective, r: ConstRange, d: nat): (vals: seq<real>)
    requires r.Valid() && d < r.Size()
    ensures |vals| == |shifts|
    ensures forall k :: 0 <= k < |shifts| ==> vals[k] == AxisValue(func, r, d, shifts[k])
  {
    seq(|shifts|, k requires 0 <= k < |shifts| => EvalShiftedX(func, r, d, shifts[k]))
  }

  /** `std::inner_product(v, c, 0)`: products accumulated from the front, over `|v|` terms. */
  function InnerProduct(v: seq<real>, c: seq<real>): real
    requires |v| <= |c|
  {
    if v == [] then 0.0 else InnerProduct(v[..|v| - 1], c) + v[|v| - 1] * c[|v| - 1]
  }

  /** The inner products of three and five terms written out. */
  lemma {:induction false} InnerProductUnrolled(v: seq<real>, c: seq<real>)
    requires |v| <= |c|
    ensures |v| == 3 ==> InnerProduct(v, c) == v[0] * c[0] + v[1] * c[1] + v[2] * c[2]
    ensures |v| == 5 ==>
      InnerProduct(v, c) == v[0] * c[0] + v[1] * c[1] + v[2] * c[2] + v[3] * c[3] + v[4] * c[4]
  {
    if |v| == 3 || |v| == 5 {
      var v1, v2 := v[..1], v[..2];
      assert v1[..0] == [] && v2[..1] == v1;
      assert InnerProduct(v1, c) == v[0] * c[0];
      assert InnerProduct(v2, c) == InnerProduct(v1, c) + v[1] * c[1];
      if |v| == 5 {
        var v3, v4 := v[..3], v[..4];
        assert v3[..2] == v2 && v4[..3] == v3 && v[..4] == v4;
        assert InnerProduct(v3, c) == InnerProduct(v2, c) + v[2] * c[2];
        assert InnerProduct(v4, c) == InnerProduct(v3, c) + v[3] * c[3];
      }
    }
  }

  /** `compute_derivation(vals, p, h)`: the inner product of the values with the stencil's
      coefficients, divided by `multiplier * h`. */
  function ComputeDerivation(vals: seq<real>, p: DerivativeProps, h: real): (r: real)
    requires |vals| <= |p.coeffs| && p.multiplier * h != 0.0
    ensures |vals| == 3 ==>
      r == (vals[0] * p.coeffs[0] + vals[1] * p.coeffs[1] + vals[2] * p.coeffs[2]) / (p.multiplier * h)
    ensures |vals| == 5 ==>
      r == (vals[0] * p.coeffs[0] + vals[1] * p.coeffs[1] + vals[2] * p.coeffs[2]
            + vals[3] * p.coeffs[3] + vals[4] * p.coeffs[4]) / (p.multiplier * h)
  {
    InnerProductUnrolled(vals, p.coeffs);
    InnerProduct(vals, p.coeffs) / (p.multiplier * h)
  }

  /** Samples taken at the 3- or 5-point offsets of `p`, one per offset, listed in order. */
  lemma SamplesListed(p: DerivativeProps, h: real, vals: seq<real>, g: real -> real)
    requires |p.coeffs| == 3 || |p.coeffs| == 5
    requires |vals| == |p.coeffs|
    requires forall k :: 0 <= k < |vals| ==> vals[k] == g(p.Shifts(h)[k])
    ensures |p.coeffs| == 3 ==> vals == [g(-h), g(0.0), g(h)]
    ensures |p.coeffs| == 5 ==> vals == [g(-2.0 * h), g(-h), g(0.0), g(h), g(2.0 * h)]
  {
    var shifts := p.Shifts(h);
    if |p.coeffs| == 3 {
      assert shifts == [-h, 0.0, h];
    } else {
      assert shifts == [-2.0 * h, -h, 0.0, h, 2.0 * h];
    }
  }

  /** The central five-point difference quotient of four samples at `-2h, -h, h, 2h`. */
  function FivePoint(m2: real, m1: real, p1: real, p2: real, h: real): real
    requires h != 0.0
  {
    (m2 - 8.0 * m1 + 8.0 * p1 - p2) / (12.0 * h)
  }

  /** The central three-point difference quotient of two samples at `-h` and `h`. */
  function CentralDifference(lo: real, hi: real, h: real): real
    requires h != 0.0
  {
    (hi - lo) / (2.0 * h)
  }

  /** `derive_by_axis(func, r, d, h, p)`: the offsets come from `p`, but the coefficients and
      the multiplier are always those of `Five`. With the five-point table this is the
      five-point difference quotient along axis `d`; with a three-point table the three
      values meet the first three coefficients of `Five`. */
  function DeriveByAxisWith(func: Objective, r: ConstRange, d: nat, h: real, p: DerivativeProps): (der: real)
    requires r.Valid() && d < r.Size() && h != 0.0
    requires |p.coeffs| == 3 || |p.coeffs| == 5
    ensures |p.coeffs| == 5 ==> der == ComputeDerivation([AxisValue(func, r, d, -2.0 * h),
      AxisValue(func, r, d, -h), AxisValue(func, r, d, 0.0), AxisValue(func, r, d, h),
      AxisValue(func, r, d, 2.0 * h)], Five, h)
    ensures |p.coeffs| == 3 ==> der == ComputeDerivation([AxisValue(func, r, d, -h),
      AxisValue(func, r, d, 0.0), AxisValue(func, r, d, h)], Five, h)
  {
    var vals := ValuesByAxis(p.Shifts(h), func, r, d);
    SamplesListed(p, h, vals, s => AxisValue(func, r, d, s));
    ComputeDerivation(vals, Five, h)
  }


  /** `derive_by_axis(func, r, d, h)`: the five-point partial derivative along axis `d`. */
  function DeriveByAxis(func: Objective, r: ConstRange, d: nat, h: real): (der: real)
    requires r.Valid() && d < r.Size() && h != 0.0
    ensures der == FivePoint(AxisValue(func, r, d, -2.0 * h),
      AxisValue(func, r, d, -h), AxisValue(func, r, d, h), AxisValue(func, r, d, 2.0 * h), h)
  {
    DeriveByAxisWith(func, r, d, h, Five)
  }

  /** `derive_by_axis_3(func, r, d, h)`, as written: three-point offsets with the five-point
      coefficients. */
  function DeriveByAxis3(func: Objective, r: ConstRange, d: nat, h: real): (der: real)
    requires r.Valid() && d < r.Size() && h != 0.0
    ensures der == (AxisValue(func, r, d, -h) - 8.0 * AxisValue(func, r, d, 0.0)) / (12.0 * h)
  {
    DeriveByAxisWith(func, r, d, h, Three)
  }

  /** `auto_grad(func, r, h)`: a vector of `r.size()` partial derivatives, filled axis by
      axis; each axis evaluates the objective afresh. */
  method AutoGrad(func: Objective, r: ConstRange, h: real) returns (grad: seq<real>)
    requires r.Valid() && h != 0.0
    ensures |grad| == r.Size()
    ensures forall i :: 0 <= i < |grad| ==> grad[i] == DeriveByAxis(func, r, i, h)
  {
    var retVal := new real[r.Size()];
    for i := 0 to retVal.Length
      invariant forall j :: 0 <= j < i ==> retVal[j] == DeriveByAxis(func, r, j, h)
    {
      retVal[i] := DeriveByAxis(func, r, i, h);
    }
    grad := retVal[..];
  }

  /** `shifted_by_direction(r, d, h)`: the lazy point `r + h * d`. */
  function ShiftedByDirection(r: View, dir: View, h: real): (v: View)
    requires r.Valid() && dir.Valid() && r.Size() == dir.Size()
    ensures v.Valid() && v.Size() == r.Size()
    ensures forall i :: 0 <= i < v.Size() ==> v.At(i) == r.At(i) + Multiply(h, dir.At(i))
  {
    Sum(r, ScalarMul(h, dir))
  }

  /** The eager point `x + s * y`. */
  function Translate(x: seq<real>, y: seq<real>, s: real): (t: seq<real>)
    requires |x| == |y|
    ensures |t| == |x|
    ensures forall i :: 0 <= i < |t| ==> t[i] == x[i] + Multiply(s, y[i])
  {
    seq(|x|, i requires 0 <= i < |x| => x[i] + Multiply(s, y[i]))
  }

  lemma TranslateAt(r: View, dir: View, s: real, i: nat)
    requires r.Valid() && dir.Valid() && r.Size() == dir.Size() && i < r.Size()
    ensures Translate(r.Contents(), dir.Contents(), s)[i] == r.At(i) + Multiply(s, dir.At(i))
  {
  }

  lemma ShiftedByDirectionAt(r: View, dir: View, s: real, i: nat)
    requires r.Valid() && dir.Valid() && r.Size() == dir.Size() && i < r.Size()
    ensures ShiftedByDirection(r, dir, s).Contents()[i] == r.At(i) + Multiply(s, dir.At(i))
  {
  }

  /** The lazy shifted point shows the eager one. */
  lemma ShiftedByDirectionIsTranslate(r: View, dir: View, s: real)
    requires r.Valid() && dir.Valid() && r.Size() == dir.Size()
    ensures ShiftedByDirection(r, dir, s).Contents() == Translate(r.Contents(), dir.Contents(), s)
  {
    var v := ShiftedByDirection(r, dir, s).Contents();
    var t := Translate(r.Contents(), dir.Contents(), s);
    forall i | 0 <= i < |v|
      ensures v[i] == t[i]
    {
      ShiftedByDirectionAt(r, dir, s, i);
      TranslateAt(r, dir, s, i);
    }
  }

  /** The objective at `r + s * dir`. */
  function DirectionValue(func: Objective, r: View, dir: View, s: real): real
    requires r.Valid() && dir.Valid() && r.Size() == dir.Size()
  {
    func(Translate(r.Contents(), dir.Contents(), s))
  }

  /** The objective evaluated on the lazy view `shifted_by_direction(r, dir, s)`. */
  function EvalShiftedByDirection(func: Objective, r: View, dir: View, s: real): (v: real)
    requires r.Valid() && dir.Valid() && r.Size() == dir.Size()
    ensures v == DirectionValue(func, r, dir, s)
  {
    ShiftedByDirectionIsTranslate(r, dir, s);
    func(ShiftedByDirection(r, dir, s).Contents())
  }

  /** `values_by_direction`: one evaluation per offset, each on its own lazy shifted point. */
  function ValuesByDirection(shifts: seq<real>, func: Objective, r: View, dir: View): (vals: seq<real>)
    requires r.Valid() && dir.Valid() && r.Size() == dir.Size()
    ensures |vals| == |shifts|
    ensures forall k :: 0 <= k < |shifts| ==> vals[k] == DirectionValue(func, r, dir, shifts[k])
  {
    seq(|shifts|, k requires 0 <= k < |shifts| => EvalShiftedByDirection(func, r, dir, shifts[k]))
  }

  /** `derive_by_directiona(func, r, d, h, p)`: offsets, coefficients and multiplier all
      taken from `p`. */
  function DeriveByDirectionWith(func: Objective, r: View, dir: View, h: real, p: DerivativeProps): (der: real)
    requires r.Valid() && dir.Valid() && r.Size() == dir.Size()
    requires |p.coeffs| == 3 || |p.coeffs| == 5
    requires h != 0.0 && p.multiplier != 0.0
    ensures |p.coeffs| == 5 ==> der == ComputeDerivation([DirectionValue(func, r, dir, -2.0 * h),
      DirectionValue(func, r, dir, -h), DirectionValue(func, r, dir, 0.0),
      DirectionValue(func, r, dir, h), DirectionValue(func, r, dir, 2.0 * h)], p, h)
    ensures |p.coeffs| == 3 ==> der == ComputeDerivation([DirectionValue(func, r, dir, -h),
      DirectionValue(func, r, dir, 0.0), DirectionValue(func, r, dir, h)], p, h)
  {
    var vals := ValuesByDirection(p.Shifts(h), func, r, dir);
    SamplesListed(p, h, vals, s => DirectionValue(func, r, dir, s));
    ComputeDerivation(vals, p, h)
  }


  /** `derive_by_direction(func, r, d, h)`: the five-point derivative along `dir`. */
  function DeriveByDirection(func: Objective, r: View, dir: View, h: real): (der: real)
    requires r.Valid() && dir.Valid() && r.Size() == dir.Size() && h != 0.0
    ensures der == FivePoint(DirectionValue(func, r, dir, -2.0 * h), DirectionValue(func, r, dir, -h),
      DirectionValue(func, r, dir, h), DirectionValue(func, r, dir, 2.0 * h), h)
  {
    DeriveByDirectionWith(func, r, dir, h, Five)
  }

  /** `derive_by_direction_3(func, r, d, h)`, as written: the `Three` table, whose
      coefficients weigh the offsets `-h` and `0`. */
  function DeriveByDirection3(func: Objective, r: View, dir: View, h: real): (der: real)
    requires r.Valid() && dir.Valid() && r.Size() == dir.Size() && h != 0.0
    ensures der == (DirectionValue(func, r, dir, 0.0) - DirectionValue(func, r, dir, -h)) / (2.0 * h)
  {
    DeriveByDirectionWith(func, r, dir, h, Three)
  }

  // Exactness over the reals: the five-point quotient is exact for quartic polynomials.

  /** The polynomial `A + B s + C s^2 + D s^3 + E s^4`. */
  function Quartic(A: real, B: real, C: real, D: real, E: real, s: real): real
  {
    A + B * s + C * (s * s) + D * (s * s * s) + E * (s * s * s * s)
  }

  /** The five-point weights annihilate 1, s^2, s^3 and s^4 and give `12h` on s. */
  lemma FivePointWeights(A: real, B: real, C: real, D: real, E: real, h: real)
    ensures Quartic(A, B, C, D, E, -2.0 * h) - 8.0 * Quartic(A, B, C, D, E, -h)
          + 8.0 * Quartic(A, B, C, D, E, h) - Quartic(A, B, C, D, E, 2.0 * h) == 12.0 * h * B
  {
    var h2 := h * h;
    var h3 := h2 * h;
    var h4 := h3 * h;
    assert (2.0 * h) * (2.0 * h) == 4.0 * h2;
    assert (2.0 * h) * (2.0 * h) * (2.0 * h) == 8.0 * h3;
    assert (2.0 * h) * (2.0 * h) * (2.0 * h) * (2.0 * h) == 16.0 * h4;
    assert (-2.0 * h) * (-2.0 * h) == 4.0 * h2;
    assert (-2.0 * h) * (-2.0 * h) * (-2.0 * h) == -8.0 * h3;
    assert (-2.0 * h) * (-2.0 * h) * (-2.0 * h) * (-2.0 * h) == 16.0 * h4;
    assert (-h) * (-h) == h2 && (-h) * (-h) * (-h) == -h3 && (-h) * (-h) * (-h) * (-h) == h4;
    assert Quartic(A, B, C, D, E, 2.0 * h) == A + 2.0 * h * B + 4.0 * h2 * C + 8.0 * h3 * D + 16.0 * h4 * E;
    assert Quartic(A, B, C, D, E, -2.0 * h) == A - 2.0 * h * B + 4.0 * h2 * C - 8.0 * h3 * D + 16.0 * h4 * E;
    assert Quartic(A, B, C, D, E, h) == A + h * B + h2 * C + h3 * D + h4 * E;
    assert Quartic(A, B, C, D, E, -h) == A - h * B + h2 * C - h3 * D + h4 * E;
  }

  /** Samples of a quartic at `-2h, -h, h, 2h` give its derivative at 0 exactly. */
  lemma FivePointExact(m2: real, m1: real, p1: real, p2: real, h: real,
                       A: real, B: real, C: real, D: real, E: real)
    requires h != 0.0
    requires m2 == Quartic(A, B, C, D, E, -2.0 * h) && m1 == Quartic(A, B, C, D, E, -h)
    requires p1 == Quartic(A, B, C, D, E, h) && p2 == Quartic(A, B, C, D, E, 2.0 * h)
    ensures FivePoint(m2, m1, p1, p2, h) == B
  {
    FivePointWeights(A, B, C, D, E, h);
    FivePointOfWeighted(m2, m1, p1, p2, h, B);
  }

  lemma FivePointOfWeighted(m2: real, m1: real, p1: real, p2: real, h: real, B: real)
    requires h != 0.0 && m2 - 8.0 * m1 + 8.0 * p1 - p2 == 12.0 * h * B
    ensures FivePoint(m2, m1, p1, p2, h) == B
  {
  }

  /** If the objective restricted to axis `d` is a quartic in the offset, `derive_by_axis`
      returns its linear coefficient, the exact partial derivative, for every `h != 0`. */
  lemma DeriveByAxisExact(func: Objective, r: ConstRange, d: nat, h: real,
                          A: real, B: real, C: real, D: real, E: real)
    requires r.Valid() && d < r.Size() && h != 0.0
    requires AxisValue(func, r, d, -2.0 * h) == Quartic(A, B, C, D, E, -2.0 * h)
    requires AxisValue(func, r, d, -h) == Quartic(A, B, C, D, E, -h)
    requires AxisValue(func, r, d, h) == Quartic(A, B, C, D, E, h)
    requires AxisValue(func, r, d, 2.0 * h) == Quartic(A, B, C, D, E, 2.0 * h)
    ensures DeriveByAxis(func, r, d, h) == B
  {
    FivePointExact(AxisValue(func, r, d, -2.0 * h), AxisValue(func, r, d, -h),
      AxisValue(func, r, d, h), AxisValue(func, r, d, 2.0 * h), h, A, B, C, D, E);
  }

  /** The same for `derive_by_direction`, with the objective restricted to the line
      `r + s * dir`. */
  lemma DeriveByDirectionExact(func: Objective, r: View, dir: View, h: real,
                               A: real, B: real, C: real, D: real, E: real)
    requires r.Valid() && dir.Valid() && r.Size() == dir.Size() && h != 0.0
    requires DirectionValue(func, r, dir, -2.0 * h) == Quartic(A, B, C, D, E, -2.0 * h)
    requires DirectionValue(func, r, dir, -h) == Quartic(A, B, C, D, E, -h)
    requires DirectionValue(func, r, dir, h) == Quartic(A, B, C, D, E, h)
    requires DirectionValue(func, r, dir, 2.0 * h) == Quartic(A, B, C, D, E, 2.0 * h)
    ensures DeriveByDirection(func, r, dir, h) == B
  {
    FivePointExact(DirectionValue(func, r, dir, -2.0 * h), DirectionValue(func, r, dir, -h),
      DirectionValue(func, r, dir, h), DirectionValue(func, r, dir, 2.0 * h), h, A, B, C, D, E);
  }

  /** The unit vector along axis `i`. */
  function UnitVector(n: nat, i: nat): (e: seq<real>)
    ensures |e| == n
    ensures forall j :: 0 <= j < n ==> e[j] == if j == i then 1.0 else 0.0
  {
    seq(n, j requires 0 <= j < n => if j == i then 1.0 else 0.0)
  }

  /** Moving by `s` along the unit vector of axis `i` adds `s` to coordinate `i` alone. */
  lemma TranslateAlongUnit(x: seq<real>, i: nat, s: real)
    requires i < |x|
    ensures Translate(x, UnitVector(|x|, i), s) == x[i := x[i] + s]
  {
    var t, e := Translate(x, UnitVector(|x|, i), s), UnitVector(|x|, i);
    forall j | 0 <= j < |x|
      ensures t[j] == x[i := x[i] + s][j]
    {
      assert t[j] == x[j] + Multiply(s, e[j]);
    }
  }

  /** The objective along the unit vector of axis `i` is the objective along axis `i`. */
  lemma DirectionValueAlongAxis(func: Objective, r: ConstRange, i: nat, s: real)
    requires r.Valid() && i < r.Size()
    ensures Const(r).Valid() && Const(OfContainer(UnitVector(r.Size(), i))).Valid()
    ensures DirectionValue(func, Const(r), Const(OfContainer(UnitVector(r.Size(), i))), s)
         == AxisValue(func, r, i, s)
  {
    var dir := Const(OfContainer(UnitVector(r.Size(), i)));
    assert Const(r).Contents() == r.Contents();
    assert dir.Contents() == UnitVector(r.Size(), i);
    TranslateAlongUnit(r.Contents(), i, s);
  }

  /** Moving along the unit vector of axis `i` is substituting coordinate `i`, so the
      directional derivative along that vector is the partial derivative (any objective,
      any `h`). */
  lemma DirectionAlongAxis(func: Objective, r: ConstRange, i: nat, h: real)
    requires r.Valid() && i < r.Size() && h != 0.0
    ensures Const(r).Valid() && Const(OfContainer(UnitVector(r.Size(), i))).Valid()
    ensures DeriveByDirection(func, Const(r), Const(OfContainer(UnitVector(r.Size(), i))), h)
         == DeriveByAxis(func, r, i, h)
  {
    DirectionValueAlongAxis(func, r, i, -2.0 * h);
    DirectionValueAlongAxis(func, r, i, -h);
    DirectionValueAlongAxis(func, r, i, h);
    DirectionValueAlongAxis(func, r, i, 2.0 * h);
  }

  // The three-point tables as evidently intended: the central difference with the table's
  // own coefficients.

  /** The central three-point table `{-1, 0, 1} / 2`. */
  const ThreePoint := DerivativeProps([-1.0, 0.0, 1.0], 2.0)

  /** `derive_by_axis(func, r, d, h, p)` with the coefficients and multiplier taken from `p`,
      as `derive_by_directiona` does. */
  function CorrectedDeriveByAxisWith(func: Objective, r: ConstRange, d: nat, h: real, p: DerivativeProps): (der: real)
    requires r.Valid() && d < r.Size() && h != 0.0
    requires |p.coeffs| == 3 || |p.coeffs| == 5
    requires p.multiplier != 0.0
    ensures |p.coeffs| == 5 ==> der == ComputeDerivation([AxisValue(func, r, d, -2.0 * h),
      AxisValue(func, r, d, -h), AxisValue(func, r, d, 0.0), AxisValue(func, r, d, h),
      AxisValue(func, r, d, 2.0 * h)], p, h)
    ensures |p.coeffs| == 3 ==> der == ComputeDerivation([AxisValue(func, r, d, -h),
      AxisValue(func, r, d, 0.0), AxisValue(func, r, d, h)], p, h)
  {
    var vals := ValuesByAxis(p.Shifts(h), func, r, d);
    SamplesListed(p, h, vals, s => AxisValue(func, r, d, s));
    ComputeDerivation(vals, p, h)
  }


  /** With the five-point table, the corrected and the as-written `derive_by_axis` agree. */
  lemma CorrectedAgreesOnFive(func: Objective, r: ConstRange, d: nat, h: real)
    requires r.Valid() && d < r.Size() && h != 0.0
    ensures CorrectedDeriveByAxisWith(func, r, d, h, Five) == DeriveByAxisWith(func, r, d, h, Five)
  {
  }

  /** `derive_by_axis_3`, corrected: the central difference along axis `d`. */
  function CorrectedDeriveByAxis3(func: Objective, r: ConstRange, d: nat, h: real): (der: real)
    requires r.Valid() && d < r.Size() && h != 0.0
    ensures der == CentralDifference(AxisValue(func, r, d, -h), AxisValue(func, r, d, h), h)
  {
    CorrectedDeriveByAxisWith(func, r, d, h, ThreePoint)
  }

  /** `derive_by_direction_3`, corrected: the central difference along `dir`. */
  function CorrectedDeriveByDirection3(func: Objective, r: View, dir: View, h: real): (der: real)
    requires r.Valid() && dir.Valid() && r.Size() == dir.Size() && h != 0.0
    ensures der == CentralDifference(DirectionValue(func, r, dir, -h), DirectionValue(func, r, dir, h), h)
  {
    DeriveByDirectionWith(func, r, dir, h, ThreePoint)
  }

  /** The central difference is exact for quadratics. */
  lemma CentralDifferenceExact(lo: real, hi: real, h: real, A: real, B: real, C: real)
    requires h != 0.0
    requires lo == Quartic(A, B, C, 0.0, 0.0, -h) && hi == Quartic(A, B, C, 0.0, 0.0, h)
    ensures CentralDifference(lo, hi, h) == B
  {
    assert hi - lo == (2.0 * h) * B;
  }

  /** The corrected three-point partial derivative is exact when the objective is quadratic
      along axis `d`. */
  lemma CorrectedDeriveByAxis3Exact(func: Objective, r: ConstRange, d: nat, h: real, A: real, B: real, C: real)
    requires r.Valid() && d < r.Size() && h != 0.0
    requires AxisValue(func, r, d, -h) == Quartic(A, B, C, 0.0, 0.0, -h)
    requires AxisValue(func, r, d, h) == Quartic(A, B, C, 0.0, 0.0, h)
    ensures CorrectedDeriveByAxis3(func, r, d, h) == B
  {
    CentralDifferenceExact(AxisValue(func, r, d, -h), AxisValue(func, r, d, h), h, A, B, C);
  }

  /** The corrected three-point directional derivative is exact when the objective is
      quadratic along `dir`. */
  lemma CorrectedDeriveByDirection3Exact(func: Objective, r: View, dir: View, h: real, A: real, B: real, C: real)
    requires r.Valid() && dir.Valid() && r.Size() == dir.Size() && h != 0.0
    requires DirectionValue(func, r, dir, -h) == Quartic(A, B, C, 0.0, 0.0, -h)
    requires DirectionValue(func, r, dir, h) == Quartic(A, B, C, 0.0, 0.0, h)
    ensures CorrectedDeriveByDirection3(func, r, dir, h) == B
  {
    CentralDifferenceExact(DirectionValue(func, r, dir, -h), DirectionValue(func, r, dir, h), h, A, B, C);
  }
}
