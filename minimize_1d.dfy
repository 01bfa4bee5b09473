/** One-dimensional minimisation by golden-section search: a bracket `[a, b]` with two
    interior probes `c < d`, shrunk by the long ratio each step towards the probe with the
    smaller value. Arithmetic is over exact reals. */
module Minimize1D {

  /** The two placement ratios: the far probe sits at `a + h * long`, the near one at
      `a + h * short`. */
  datatype Ratios = Ratios(long: real, short: real)

  /** The decimal literals of the source (`FPHI` and `SPHI`). */
  const FPHI: real := 0.618033988749894848204586834365638117720309179805762862135
  const SPHI: real := 0.381966011250105151795413165634361882279690820194237137864

  const Source := Ratios(FPHI, SPHI)

  /** Ideal golden ratios: `short = 1 - long = long^2`, so that one probe of a step is
      reused as a probe of the next. */
  ghost predicate IsGolden(g: Ratios)
  {
    0.0 < g.long < 1.0 && g.short == 1.0 - g.long && g.long * g.long == g.short
  }

  /** The literals are golden to within `1e-56`, but not exactly: their sum falls short of 1
      by `1e-57`, and `FPHI^2 + FPHI` falls short of 1 by less than `1e-56`. */
  lemma SourceNearlyGolden()
    ensures 1.0 - (FPHI + SPHI) == 0.000000000000000000000000000000000000000000000000000000001
    ensures 0.0 < 1.0 - FPHI - FPHI * FPHI < 0.00000000000000000000000000000000000000000000000000000001
    ensures !IsGolden(Source)
  {
  }

  /** The search state: bounds, probes, values at the probes, and the width `h` the source
      tracks separately from `b - a`. */
  datatype Bracket = Bracket(a: real, b: real, c: real, d: real, vc: real, vd: real, h: real)

  /** The probes sit at their ratios of the width, and the width is `b - a`. */
  ghost predicate Placed(s: Bracket, g: Ratios)
  {
    s.b - s.a == s.h && s.c == s.a + s.h * g.short && s.d == s.a + s.h * g.long
  }

  /** The cached values are the objective at the probes. */
  ghost predicate Cached(f: real -> real, s: Bracket)
  {
    s.vc == f(s.c) && s.vd == f(s.d)
  }

  /** The bracket before the loop: bounds in order, probes placed, both probes evaluated. */
  function Start(f: real -> real, lo: real, hi: real, g: Ratios): (s: Bracket)
    ensures s.a <= s.b && ((s.a == lo && s.b == hi) || (s.a == hi && s.b == lo))
    ensures s.h >= 0.0 && Placed(s, g) && Cached(f, s)
  {
    var a := if lo <= hi then lo else hi;
    var b := if lo <= hi then hi else lo;
    var h := b - a;
    var c := a + h * g.short;
    var d := a + h * g.long;
    Bracket(a, b, c, d, f(c), f(d), h)
  }

  /** The probe at ratio `r` of a bracket of width `h` that starts at `a`. */
  function ProbeAt(a: real, h: real, r: real): real
  {
    a + h * r
  }

  /** One iteration of the loop: keep the side of the probe with the smaller value (the
      left one when `vc < vd`), reuse the surviving probe and its value, and evaluate one
      new probe. */
  function Step(f: real -> real, s: Bracket, g: Ratios): (t: Bracket)
    ensures t.h == s.h * g.long
    ensures Cached(f, s) ==> Cached(f, t)
    ensures s.vc < s.vd ==> t.a == s.a && t.b == s.d && t.d == s.c && t.vd == s.vc
    ensures s.vc < s.vd ==> t.c == ProbeAt(s.a, t.h, g.short) && t.vc == f(t.c)
    ensures !(s.vc < s.vd) ==> t.a == s.c && t.b == s.b && t.c == s.d && t.vc == s.vd
    ensures !(s.vc < s.vd) ==> t.d == ProbeAt(s.c, t.h, g.long) && t.vd == f(t.d)
  {
    if s.vc < s.vd then
      var h := s.h * g.long;
      var c := s.a + h * g.short;
      Bracket(s.a, s.d, c, s.c, f(c), s.vc, h)
    else
      var h := s.h * g.long;
      var d := s.c + h * g.long;
      Bracket(s.c, s.b, s.d, d, s.vd, f(d), h)
  }

  /** The two branches of `Step`, spelled out for the loop of `GoldenRatioMinimize`. */
  lemma StepLeft(f: real -> real, s: Bracket, g: Ratios)
    requires s.vc < s.vd
    ensures var h := s.h * g.long;
      Step(f, s, g) == Bracket(s.a, s.d, s.a + h * g.short, s.c, f(s.a + h * g.short), s.vc, h)
  {
    var t := Step(f, s, g);
    assert t.c == s.a + (s.h * g.long) * g.short;
    assert t.vc == f(s.a + (s.h * g.long) * g.short);
  }

  lemma StepRight(f: real -> real, s: Bracket, g: Ratios)
    requires !(s.vc < s.vd)
    ensures var h := s.h * g.long;
      Step(f, s, g) == Bracket(s.c, s.b, s.d, s.c + h * g.long, s.vd, f(s.c + h * g.long), h)
  {
    var t := Step(f, s, g);
    assert t.d == s.c + (s.h * g.long) * g.long;
    assert t.vd == f(s.c + (s.h * g.long) * g.long);
  }

  function Pow(x: real, k: nat): real
  {
    if k == 0 then 1.0 else x * Pow(x, k - 1)
  }

  /** Shrinking the width once and then `k` times is shrinking it `k + 1` times. */
  lemma PowStep(h: real, x: real, k: nat)
    ensures (h * x) * Pow(x, k) == h * Pow(x, k + 1)
  {
    assert Pow(x, k + 1) == x * Pow(x, k);
    assert (h * x) * Pow(x, k) == h * (x * Pow(x, k));
  }

  /** Where the loop ends and how many iterations it ran. */
  datatype Outcome = Outcome(final: Bracket, steps: nat)

  /** The loop `for (step = 0; step < budget && tol < h; step++)`: at most `budget` steps;
      fewer only when the width has reached `tol`; the cached values stay the objective at
      the probes. */
  function Search(f: real -> real, s: Bracket, tol: real, budget: nat, g: Ratios): (o: Outcome)
    ensures o.steps <= budget
    ensures o.steps < budget ==> !(tol < o.final.h)
    ensures Cached(f, s) ==> Cached(f, o.final)
    decreases budget
  {
    if budget == 0 || !(tol < s.h) then
      Outcome(s, 0)
    else
      var o := Search(f, Step(f, s, g), tol, budget - 1, g);
      Outcome(o.final, o.steps + 1)
  }

  /** A width shrunk `k` times by `x`, one shrinking at a time. */
  function Width(h: real, x: real, k: nat): real
    decreases k
  {
    if k == 0 then h else Width(h * x, x, k - 1)
  }

  /** Shrinking `n + 1` times is one step and then `n` shrinkings. */
  lemma WidthAfterStep(f: real -> real, s: Bracket, g: Ratios, n: nat)
    ensures Width(s.h, g.long, n + 1) == Width(Step(f, s, g).h, g.long, n)
  {
    StepWidth(f, s, g);
    WidthUnfold(s.h, g.long, n);
  }

  lemma StepWidth(f: real -> real, s: Bracket, g: Ratios)
    ensures Step(f, s, g).h == s.h * g.long
  {
  }

  lemma WidthUnfold(h: real, x: real, n: nat)
    ensures Width(h, x, n + 1) == Width(h * x, x, n)
  {
  }

  /** Shrinking `k` times by `x` is scaling by `x^k`. */
  lemma {:induction false} WidthIsPow(h: real, x: real, k: nat)
    ensures Width(h, x, k) == h * Pow(x, k)
    decreases k
  {
    if k == 0 {
      assert h * Pow(x, 0) == h * 1.0;
    } else {
      WidthIsPow(h * x, x, k - 1);
      PowStep(h, x, k - 1);
    }
  }

  /** Each step shrinks the width by `long`: after `k` steps it is `h` shrunk `k` times, which
      `WidthIsPow` puts as `h * long^k`. */
  lemma {:induction false} SearchWidth(f: real -> real, s: Bracket, tol: real, budget: nat, g: Ratios)
    ensures Search(f, s, tol, budget, g).final.h == Width(s.h, g.long, Search(f, s, tol, budget, g).steps)
    decreases budget
  {
    if budget > 0 && tol < s.h {
      var t := Step(f, s, g);
      var o := Search(f, t, tol, budget - 1, g);
      SearchWidth(f, t, tol, budget - 1, g);
      WidthAfterStep(f, s, g, o.steps);
      assert Search(f, s, tol, budget, g) == Outcome(o.final, o.steps + 1);
    } else {
      assert Search(f, s, tol, budget, g) == Outcome(s, 0);
    }
  }

  /** The estimate returned: the midpoint of the kept side. */
  function Estimate(s: Bracket): real
  {
    if s.vc < s.vd then 0.5 * (s.a + s.d) else 0.5 * (s.b + s.c)
  }

  /** The search as a method over the source's locals. The flag is `tol > h`, the estimate
      the midpoint of the side the last comparison would keep. */
  method GoldenRatioMinimize(f: real -> real, lo: real, hi: real, tol: real, maxSteps: nat)
    returns (converged: bool, x: real)
    ensures var o := Search(f, Start(f, lo, hi, Source), tol, maxSteps, Source);
      converged == (tol > o.final.h) && x == Estimate(o.final)
  {
    var a := if lo <= hi then lo else hi;
    var b := if lo <= hi then hi else lo;
    var h := b - a;
    var c, d := a + h * SPHI, a + h * FPHI;
    var vc, vd := f(c), f(d);
    ghost var s0 := Bracket(a, b, c, d, vc, vd, h);
    StartWithSource(f, lo, hi);
    assert s0 == Start(f, lo, hi, Source);
    ghost var s := s0;
    var step: nat := 0;
    while step < maxSteps && tol < h
      invariant step <= maxSteps
      invariant s == Iterate(f, s0, step, Source)
      invariant s == Bracket(a, b, c, d, vc, vd, h)
      invariant WideBefore(f, s0, tol, step, Source)
      decreases maxSteps - step
    {
      IterateLast(f, s0, step, Source);
      WideBeforeStep(f, s0, tol, step, Source);
      a, b, c, d, vc, vd, h := Shrink(f, a, b, c, d, vc, vd, h);
      s := Step(f, s, Source);
      step := step + 1;
    }
    SearchIsIterate(f, s0, tol, maxSteps, Source, step);
    if vc < vd {
      converged, x := tol > h, 0.5 * (a + d);
    } else {
      converged, x := tol > h, 0.5 * (b + c);
    }
  }

  /** The body of the loop over the source's locals: one `Step` with the source's ratios. */
  method Shrink(f: real -> real, a: real, b: real, c: real, d: real, vc: real, vd: real, h: real)
    returns (a': real, b': real, c': real, d': real, vc': real, vd': real, h': real)
    ensures Bracket(a', b', c', d', vc', vd', h') == Step(f, Bracket(a, b, c, d, vc, vd, h), Source)
  {
    a', b', c', d', vc', vd', h' := a, b, c, d, vc, vd, h;
    if vc < vd {
      StepLeftSource(f, Bracket(a, b, c, d, vc, vd, h));
      b' := d';
      d' := c';
      vd' := vc';
      h' := h' * FPHI;
      c' := a' + h' * SPHI;
      vc' := f(c');
    } else {
      StepRightSource(f, Bracket(a, b, c, d, vc, vd, h));
      a' := c';
      c' := d';
      vc' := vd';
      h' := h' * FPHI;
      d' := a' + h' * FPHI;
      vd' := f(d');
    }
  }

  /** The bracket the method starts from is `Start` with the source's ratios. */
  lemma StartWithSource(f: real -> real, lo: real, hi: real)
    ensures var a := if lo <= hi then lo else hi;
      var b := if lo <= hi then hi else lo;
      var h := b - a;
      Start(f, lo, hi, Source) == Bracket(a, b, a + h * SPHI, a + h * FPHI, f(a + h * SPHI), f(a + h * FPHI), h)
  {
  }

  /** The left branch of the loop body with the source's ratios. */
  lemma StepLeftSource(f: real -> real, s: Bracket)
    requires s.vc < s.vd
    ensures Step(f, s, Source) == Bracket(s.a, s.d, s.a + (s.h * FPHI) * SPHI, s.c, f(s.a + (s.h * FPHI) * SPHI), s.vc, s.h * FPHI)
  {
    StepLeft(f, s, Source);
  }

  /** The right branch of the loop body with the source's ratios. */
  lemma StepRightSource(f: real -> real, s: Bracket)
    requires !(s.vc < s.vd)
    ensures Step(f, s, Source) == Bracket(s.c, s.b, s.d, s.c + (s.h * FPHI) * FPHI, s.vd, f(s.c + (s.h * FPHI) * FPHI), s.h * FPHI)
  {
    StepRight(f, s, Source);
  }

  /** Every one of the first `k` brackets from `s` is wider than `tol`. */
  ghost predicate WideBefore(f: real -> real, s: Bracket, tol: real, k: nat, g: Ratios)
    decreases k
  {
    k == 0 || (tol < s.h && WideBefore(f, Step(f, s, g), tol, k - 1, g))
  }

  /** One more wide bracket extends the run of wide brackets by one. */
  lemma {:induction false} WideBeforeStep(f: real -> real, s: Bracket, tol: real, k: nat, g: Ratios)
    requires WideBefore(f, s, tol, k, g) && tol < Iterate(f, s, k, g).h
    ensures WideBefore(f, s, tol, k + 1, g)
    decreases k
  {
    if k > 0 {
      WideBeforeStep(f, Step(f, s, g), tol, k - 1, g);
    }
  }

  /** The bracket after `k` steps, whatever the tolerance. */
  function Iterate(f: real -> real, s: Bracket, k: nat, g: Ratios): Bracket
    decreases k
  {
    if k == 0 then s else Iterate(f, Step(f, s, g), k - 1, g)
  }

  /** The `k + 1`-th bracket is one step from the `k`-th. */
  lemma {:induction false} IterateLast(f: real -> real, s: Bracket, k: nat, g: Ratios)
    ensures Iterate(f, s, k + 1, g) == Step(f, Iterate(f, s, k, g), g)
    decreases k
  {
    if k > 0 {
      IterateLast(f, Step(f, s, g), k - 1, g);
    }
  }

  /** The search stops at the first `k` steps at which the budget is spent or the width
      has reached `tol`, and ends at the `k`-th bracket. */
  lemma {:induction false} SearchIsIterate(f: real -> real, s: Bracket, tol: real, budget: nat, g: Ratios, k: nat)
    requires k <= budget && (k == budget || !(tol < Iterate(f, s, k, g).h))
    requires WideBefore(f, s, tol, k, g)
    ensures Search(f, s, tol, budget, g) == Outcome(Iterate(f, s, k, g), k)
    decreases k
  {
    if k > 0 {
      SearchIsIterate(f, Step(f, s, g), tol, budget - 1, g, k - 1);
    }
  }

  datatype Result<T> = Ok(value: T) | Err(error: string)

  /** `auto_golden_ratio_minimize`: the search, with a failed convergence flag turned into
      the `logic_error` the source throws. */
  method AutoGoldenRatioMinimize(f: real -> real, lo: real, hi: real, tol: real, maxSteps: nat)
    returns (r: Result<real>)
    ensures var o := Search(f, Start(f, lo, hi, Source), tol, maxSteps, Source);
      && (r.Ok? <==> tol > o.final.h)
      && (r.Ok? ==> r.value == Estimate(o.final))
      && (r.Err? ==> r.error == "Divergence of GRM?!")
  {
    var converged, x := GoldenRatioMinimize(f, lo, hi, tol, maxSteps);
    if !converged {
      return Err("Divergence of GRM?!");
    }
    return Ok(x);
  }

  // What the loop guarantees for any ratios.

  /** While the loop runs, the width is above `tol`: every width before the last one. */
  lemma {:induction false} SearchRanWhileWide(f: real -> real, s: Bracket, tol: real, budget: nat, g: Ratios, k: nat)
    requires k < Search(f, s, tol, budget, g).steps
    ensures tol < s.h * Pow(g.long, k)
    decreases budget
  {
    assert budget != 0 && tol < s.h;
    if k > 0 {
      SearchRanWhileWide(f, Step(f, s, g), tol, budget - 1, g, k - 1);
      PowStep(s.h, g.long, k - 1);
    } else {
      assert s.h * Pow(g.long, 0) == s.h * 1.0;
    }
  }

  /** A budget of `n` steps suffices whenever `n` shrinkings bring the width below `tol`:
      the loop runs at most `n` steps and ends with the width at most `tol`, so the search
      reports convergence unless the width lands exactly on `tol`. */
  lemma BudgetSuffices(f: real -> real, s: Bracket, tol: real, budget: nat, g: Ratios, n: nat)
    requires s.h * Pow(g.long, n) < tol && n <= budget
    ensures Search(f, s, tol, budget, g).steps <= n
    ensures tol > Search(f, s, tol, budget, g).final.h || Search(f, s, tol, budget, g).final.h == tol
  {
    var o := Search(f, s, tol, budget, g);
    if o.steps > n {
      SearchRanWhileWide(f, s, tol, budget, g, n);
    } else if o.steps == budget {
      SearchWidth(f, s, tol, budget, g);
      WidthIsPow(s.h, g.long, n);
    }
  }

  /** A bracket whose width equals the tolerance is reported as not converged: the loop
      does not run (`tol < h` fails) and neither does the flag hold (`tol > h` fails). For
      the bounds `(0, 1)` and `tol = 1` the search returns `false`. */
  lemma ExactToleranceNotConverged(f: real -> real, lo: real, hi: real, budget: nat, g: Ratios)
    ensures var s := Start(f, lo, hi, g);
      var o := Search(f, s, s.h, budget, g);
      o.steps == 0 && o.final == s && !(s.h > o.final.h)
    ensures !(1.0 > Search(f, Start(f, 0.0, 1.0, g), 1.0, budget, g).final.h)
  {
  }

  // What the loop guarantees with ideal golden ratios.

  /** With golden ratios, a step keeps the probes placed: the kept probe is the new
      bracket's other probe. */
  lemma StepKeepsPlacement(f: real -> real, s: Bracket, g: Ratios)
    requires IsGolden(g) && Placed(s, g)
    ensures Placed(Step(f, s, g), g)
  {
    if s.vc < s.vd {
      LeftKeepsPlacement(f, s, g);
    } else {
      RightKeepsPlacement(f, s, g);
    }
  }

  /** Keeping the left side places the bracket by the ratios again. */
  lemma LeftKeepsPlacement(f: real -> real, s: Bracket, g: Ratios)
    requires IsGolden(g) && Placed(s, g) && s.vc < s.vd
    ensures Placed(Step(f, s, g), g)
  {
    var t := Step(f, s, g);
    NearProbeKept(s.h, g);
    assert t.d == t.a + t.h * g.long;
  }

  /** Keeping the right side places the bracket by the ratios again. */
  lemma RightKeepsPlacement(f: real -> real, s: Bracket, g: Ratios)
    requires IsGolden(g) && Placed(s, g) && !(s.vc < s.vd)
    ensures Placed(Step(f, s, g), g)
  {
    var t := Step(f, s, g);
    FarProbeKept(s.h, g);
    assert t.b - t.a == t.h;
    assert t.c == t.a + t.h * g.short;
  }

  /** Keeping the left side, the old near probe `h * short` is the new far probe `(h * long) * long`. */
  lemma NearProbeKept(h: real, g: Ratios)
    requires IsGolden(g)
    ensures h * g.short == (h * g.long) * g.long
  {
  }

  /** Keeping the right side, the new width is `h - h * short`, and the old far probe `h * long`
      is the new near probe `h * short + (h * long) * short`. */
  lemma FarProbeKept(h: real, g: Ratios)
    requires IsGolden(g)
    ensures h - h * g.short == h * g.long
    ensures h * g.long == h * g.short + (h * g.long) * g.short
  {
    var l := g.long;
    assert l == l * l + l * (l * l);
  }

  /** `f` decreases strictly up to `m` and increases strictly after it. */
  ghost predicate Unimodal(f: real -> real, m: real)
  {
    (forall x, y :: x < y <= m ==> f(y) < f(x)) && (forall x, y :: m <= x < y ==> f(x) < f(y))
  }

  /** With golden ratios, the probes of a placed bracket are in order, strictly inside a
      bracket of positive width, and a step only narrows the bracket. */
  lemma ProbesOrdered(s: Bracket, g: Ratios)
    requires IsGolden(g) && Placed(s, g) && s.h >= 0.0
    ensures s.a <= s.c <= s.d <= s.b
    ensures s.h > 0.0 ==> s.c < s.d
    ensures s.h == 0.0 ==> s.a == s.b
    ensures s.h * g.long >= 0.0
  {
    GoldenOrdered(g);
    ScaledInOrder(s.h, g.short, g.long);
  }

  /** Golden ratios satisfy `0 < short < long < 1`. */
  lemma GoldenOrdered(g: Ratios)
    requires IsGolden(g)
    ensures 0.0 < g.short < g.long < 1.0
  {
    var l := g.long;
    assert l * l < l * 1.0;
  }

  /** Scaling by a non-negative width keeps two ratios in order and below the width. */
  lemma ScaledInOrder(h: real, p: real, q: real)
    requires 0.0 <= h && 0.0 < p < q < 1.0
    ensures 0.0 <= h * p <= h * q <= h
    ensures h > 0.0 ==> h * p < h * q
  {
    assert h * q <= h * 1.0;
  }

  /** With golden ratios, a step of a placed bracket around the minimiser of a unimodal
      objective keeps the minimiser inside and shrinks the bracket. */
  lemma StepKeepsMinimizer(f: real -> real, s: Bracket, g: Ratios, m: real)
    requires IsGolden(g) && Placed(s, g) && Cached(f, s) && s.h >= 0.0
    requires Unimodal(f, m) && s.a <= m <= s.b
    ensures Step(f, s, g).a <= m <= Step(f, s, g).b
    ensures s.a <= Step(f, s, g).a && Step(f, s, g).b <= s.b
    ensures Step(f, s, g).h >= 0.0
  {
    ProbesOrdered(s, g);
  }

  /** The search ends at the bracket `Iterate` reaches in the number of steps it took. */
  lemma {:induction false} SearchEndsAtIterate(f: real -> real, s: Bracket, tol: real, budget: nat, g: Ratios)
    ensures Search(f, s, tol, budget, g).final == Iterate(f, s, Search(f, s, tol, budget, g).steps, g)
    decreases budget
  {
    if budget != 0 && tol < s.h {
      var t := Step(f, s, g);
      SearchEndsAtIterate(f, t, tol, budget - 1, g);
      var o := Search(f, t, tol, budget - 1, g);
      assert Iterate(f, s, o.steps + 1, g) == Iterate(f, t, o.steps, g);
    }
  }

  /** With golden ratios, every bracket the loop reaches keeps the minimiser of a unimodal
      objective, keeps the probes placed, and only shrinks. */
  lemma {:induction false} IterateKeepsMinimizer(f: real -> real, s: Bracket, k: nat, g: Ratios, m: real)
    requires IsGolden(g) && Placed(s, g) && Cached(f, s) && s.h >= 0.0
    requires Unimodal(f, m) && s.a <= m <= s.b
    ensures var t := Iterate(f, s, k, g);
      t.a <= m <= t.b && s.a <= t.a && t.b <= s.b && Placed(t, g) && Cached(f, t) && t.h >= 0.0
    decreases k
  {
    if k > 0 {
      var t := Step(f, s, g);
      StepKeepsMinimizer(f, s, g, m);
      StepKeepsPlacement(f, s, g);
      IterateKeepsMinimizer(f, t, k - 1, g, m);
      assert Iterate(f, s, k, g) == Iterate(f, t, k - 1, g);
    }
  }

  /** With golden ratios, the whole search keeps the minimiser of a unimodal objective in
      the bracket, keeps the probes placed, and only shrinks the bracket. */
  lemma SearchKeepsMinimizer(f: real -> real, s: Bracket, tol: real, budget: nat, g: Ratios, m: real)
    requires IsGolden(g) && Placed(s, g) && Cached(f, s) && s.h >= 0.0
    requires Unimodal(f, m) && s.a <= m <= s.b
    ensures var t := Search(f, s, tol, budget, g).final;
      t.a <= m <= t.b && s.a <= t.a && t.b <= s.b && Placed(t, g) && t.h >= 0.0
  {
    SearchEndsAtIterate(f, s, tol, budget, g);
    IterateKeepsMinimizer(f, s, Search(f, s, tol, budget, g).steps, g, m);
  }

  /** With golden ratios, the estimate lies in the bracket. */
  lemma EstimateWithin(s: Bracket, g: Ratios)
    requires IsGolden(g) && Placed(s, g) && s.h >= 0.0
    ensures s.a <= Estimate(s) <= s.b
  {
    assert 0.0 <= s.h * g.short <= s.h && 0.0 <= s.h * g.long <= s.h;
  }

  /** With golden ratios and a unimodal objective whose minimiser lies between the bounds,
      the estimate is within the final width of the minimiser, and within `tol` of it
      when the search reports convergence. */
  lemma GoldenAccuracy(f: real -> real, lo: real, hi: real, tol: real, budget: nat, g: Ratios, m: real)
    requires IsGolden(g) && Unimodal(f, m)
    requires (lo <= m <= hi) || (hi <= m <= lo)
    ensures var o := Search(f, Start(f, lo, hi, g), tol, budget, g);
      -o.final.h <= Estimate(o.final) - m <= o.final.h
    ensures var o := Search(f, Start(f, lo, hi, g), tol, budget, g);
      tol > o.final.h ==> -tol < Estimate(o.final) - m < tol
  {
    var s := Start(f, lo, hi, g);
    SearchKeepsMinimizer(f, s, tol, budget, g, m);
    EstimateWithin(Search(f, s, tol, budget, g).final, g);
  }
}
