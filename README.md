# minimize: zero-copy views, finite differences and golden-section search

This project models the numerical core of the `minimize` header library.

- **Views** (`Ranges`). A view is a read-only, zero-copy window over a container of values. It offers `size()` and `at(i)`. The kinds of view are:
  - `const_range`, a window `[begin, end)` of a container;
  - `subs_range`, the same window with one `(index, value)` override;
  - a constant `scalar_range`;
  - the element-wise `bop_range` of two views.

  Every view is a Dafny datatype value with `Size` and `At`. Nesting views is nesting those values, so no view can change the container it reads.
- **Element-wise combinators** (`Operations`). `sum`, `sub` and `mul` are lazy views whose element `i` is the operator applied to element `i` of two views of one size. `scalar_sum` and `scalar_mul` do the same against a constant view.
- **Finite-difference engine** (`Derivate`). It covers:
  - the 3- and 5-point stencil tables;
  - the perturbed points: `shifted_x` substitutes one coordinate, and `shifted_by_direction` is the lazy `r + h * dir`;
  - one objective evaluation per offset;
  - `compute_derivation`, the inner product of the samples and coefficients divided by `multiplier * h`;
  - partial and directional derivatives;
  - the gradient `auto_grad`, a method that fills an array in a loop.

  `DerivateExamples` applies the engine to the objectives of the library's test suite.
- **Golden-section search** (`Minimize1D`). `golden_ratio_minimize` is a method with the source's loop over the locals `a, b, c, d, vc, vd, h`. It is proved equal to the functional model `Search` of that loop. `auto_golden_ratio_minimize` turns a failed convergence flag into an error.

All arithmetic is over exact reals. The objective is a total function of the values a view shows (`seq<real> -> real`), or of a real for the search.

Three behaviours of the code are easy to misread. The model follows the code in each:

- `SPHI` is the decimal literal of the source, not `1 - FPHI`. The two differ in the 57th decimal.
- The search stops once `h <= tol`, but it reports convergence only when `tol > h`. A final width equal to `tol` is therefore reported as not converged.
- A length mismatch between the two inputs of a binary-operator view is a precondition. The code that would signal it (`bop_range`) is not part of this model.

## Model

| member | source | states |
|---|---|---|
| Ranges.ConstRange.Contents | headers/ranges.hpp:113-118 | the values a window shows are `size()` many, element `i` being `at(i)` |
| Ranges.ConstRange.Size | headers/ranges.hpp:97-99 | the size of a window is the distance from its start to its end |
| Ranges.ConstRange.At | headers/ranges.hpp:113-118 | `at(i)` is the container's element `i` places after the window's start |
| Ranges.Iterator.Num | headers/ranges.hpp:52-54 | `num()` is the distance from the window's start to the iterator's position |
| Ranges.Iterator.Deref | headers/ranges.hpp:46-51 | dereferencing yields the container's element at the iterator's position |
| Ranges.OfContainer | headers/ranges.hpp:132-134 | the window over a whole container has the container's size, `at(i)` is the container's element `i`, and it shows exactly the container |
| Ranges.ConstRange.Begin | headers/ranges.hpp:101-103 | `begin()` is the iterator at the window's start, over the window's start |
| Ranges.ConstRange.End | headers/ranges.hpp:104-106 | `end()` is the iterator at the window's end, over the window's start |
| Ranges.ConstRange.IteratorAt | headers/ranges.hpp:107-112 | `iterator_at(n)` is the iterator `n` places after the window's start |
| Ranges.IteratorBounds | headers/ranges.hpp:101-112 | `begin()` is at position 0 and `end()` at `size()`; both carry the window's start, so they compare by position alone; `iterator_at(0)` is `begin()` and `iterator_at(size())` is `end()` |
| Ranges.IteratorAtAgrees | headers/ranges.hpp:107-118 | for every `i < size()`, `iterator_at(i)` is at position `num() == i` and dereferences to `at(i)` |
| Ranges.SubsIterator.Deref | headers/ranges.hpp:71-76 | a substitution iterator yields the override when its `num()` equals `idx`, and the base element at its position otherwise |
| Ranges.SubsRange.Size | headers/ranges.hpp:169-172 | a substitution view has the size of the window it was built from |
| Ranges.SubsRange.Begin | headers/ranges.hpp:177-179 | `begin()` is the base window's `begin()` carrying the override |
| Ranges.SubsRange.End | headers/ranges.hpp:180-182 | `end()` is the base window's `end()` carrying the override |
| Ranges.SubsRange.IteratorAt | headers/ranges.hpp:183-185 | `iterator_at(n)` is the base window's `iterator_at(n)` carrying the override |
| Ranges.SubsRange.At | headers/ranges.hpp:186-195 | `at(i)` is the override when `i == idx`, and the base window's `at(i)` otherwise |
| Ranges.SubsRange.Contents | headers/ranges.hpp:186-195 | a substitution view shows `size()` values, element `i` being `at(i)`: its base with element `idx` replaced by `val` when `idx` lies inside the window, and the base unchanged otherwise |
| Ranges.SubsOfContainer | headers/ranges.hpp:173-175 | `subs_range(cont, {idx, val})` shows the container with element `idx` replaced by `val`, or the container unchanged when `idx` is past its end |
| Ranges.SubsIsUpdate | headers/ranges.hpp:186-195 | a substitution view keeps its base's size, shows the override at `idx` when `idx` lies inside the window, and the base at every other index |
| Ranges.SubsIteratorAtAgrees | headers/ranges.hpp:71-76 | `subs_range::iterator_at(i)` is at position `i` and dereferences to `at(i)`, the override at `idx` and the base elsewhere; `begin()` is at 0 and `end()` at `size()` |
| Ranges.ScalarRange.Size | test/ranges.cpp:76-84 | a scalar range of length `n` has size `n` |
| Ranges.ScalarRange.At | test/ranges.cpp:76-84 | every element of a scalar range is its body |
| Ranges.View.Valid | test/operations.cpp:20-25 | a composed view is well formed when its windows lie inside their containers and the two inputs of every binary-operator view have one size |
| Ranges.View.Size | test/operations.cpp:20-21 | a binary-operator view has the size of its inputs; every other view has its own size |
| Ranges.View.At | test/operations.cpp:20-24 | element `i` of a binary-operator view is the operator applied to element `i` of its two inputs; every other view answers its own `at(i)` |
| Operations.Plus | headers/operations.hpp:20 | the `plus` operator adds its two operands |
| Operations.Minus | headers/operations.hpp:30 | the `minus` operator subtracts its second operand from its first |
| Operations.Multiply | headers/operations.hpp:40 | the `multiply` operator multiplies its two operands |
| Operations.Sum | headers/operations.hpp:19-27 | `sum(c1, c2)` has the inputs' size, and element `i` is `c1.at(i) + c2.at(i)` |
| Operations.Sub | headers/operations.hpp:29-37 | `sub(c1, c2)` has the inputs' size, and element `i` is `c1.at(i) - c2.at(i)` |
| Operations.Mul | headers/operations.hpp:39-47 | `mul(c1, c2)` has the inputs' size, and element `i` is `c1.at(i) * c2.at(i)` |
| Operations.ScalarSum | headers/operations.hpp:66-70 | `scalar_sum(v, r)` has `r`'s size, and element `i` is `v + r.at(i)` |
| Operations.ScalarMul | headers/operations.hpp:72-76 | `scalar_mul(v, r)` has `r`'s size, and element `i` is `v * r.at(i)` |
| Operations.BopIsZipWith | test/operations.cpp:20-25 | a lazy binary-operator view shows exactly the eager pairwise combination of its two materialised inputs |
| Operations.SubUndoesSum | headers/operations.hpp:19-37 | `sub(sum(a, b), b)` shows the same values as `a` |
| Operations.SumCommutes | headers/operations.hpp:19-27 | `sum(a, b)` and `sum(b, a)` show the same values |
| Operations.ScalarSumInverse | headers/operations.hpp:66-70 | subtracting the broadcast constant from `scalar_sum(v, r)` gives back `r` |
| Operations.ScalarMulDistributes | headers/operations.hpp:72-76 | `scalar_mul(k, sum(a, b))` shows the same values as `sum(scalar_mul(k, a), scalar_mul(k, b))` |
| Operations.ScalarMulComposes | headers/operations.hpp:72-76 | scaling by 1 changes nothing, and scaling by `m` and then `k` is scaling by `k * m` |
| Derivate.Five | headers/derivate.hpp:46 | `constants::five` is the coefficients `1, -8, 0, 8, -1` with multiplier 12 |
| Derivate.Three | headers/derivate.hpp:47 | `constants::three` is the initialiser `{-1., 1.}` zero-filled to `-1, 1, 0`, with multiplier 2 |
| Derivate.DerivativeProps.Shifts | headers/derivate.hpp:36-45 | the offset table has one entry per coefficient, and offset `k` is `(k - pn/2) * h`: `[-h, 0, h]` and `[-2h, -h, 0, h, 2h]` |
| Derivate.ShiftedX | headers/derivate.hpp:50-54 | `shifted_x(r, d, h)` has `r`'s size, coordinate `d` moved by `h`, and every other coordinate as in `r` |
| Derivate.EvalShiftedX | headers/derivate.hpp:64-66 | the objective evaluated on the substitution view `shifted_x(r, d, s)` equals the objective at the point `r` with coordinate `d` moved by `s` |
| Derivate.ValuesByAxis | headers/derivate.hpp:56-69 | one value per offset, value `k` being the objective at the point moved along axis `d` by offset `k` |
| Derivate.InnerProduct | headers/derivate.hpp:73-74 | `std::inner_product` of the samples and the coefficients from 0: the products accumulated from the front over the samples' length |
| Derivate.InnerProductUnrolled | headers/derivate.hpp:73-74 | the front-to-back inner product of three or five terms is the sum of the pairwise products |
| Derivate.ComputeDerivation | headers/derivate.hpp:71-76 | for 3 or 5 samples, the result is the sum of sample times coefficient over `multiplier * h` |
| Derivate.DeriveByAxisWith | headers/derivate.hpp:78-86 | the samples are taken at `p`'s offsets, but the coefficients and multiplier are always `five`'s, whichever table is passed |
| Derivate.DeriveByAxis | headers/derivate.hpp:89-93 | the partial derivative is the central five-point quotient of the objective at `-2h, -h, h, 2h` along axis `d` |
| Derivate.DeriveByAxis3 | headers/derivate.hpp:95-99 | `derive_by_axis_3` as written is `(f(-h) - 8 f(0)) / (12h)` along axis `d`, which is not a difference quotient |
| Derivate.AutoGrad | headers/derivate.hpp:101-109 | the gradient has one entry per coordinate, entry `i` being the five-point partial derivative along axis `i` |
| Derivate.ShiftedByDirection | headers/derivate.hpp:111-115 | `shifted_by_direction(r, dir, h)` has `r`'s size, and element `i` is `r.at(i) + h * dir.at(i)` |
| Derivate.ShiftedByDirectionIsTranslate | headers/derivate.hpp:111-115 | the lazy shifted point shows the same values as the eager point `r + h * dir` |
| Derivate.EvalShiftedByDirection | headers/derivate.hpp:124-128 | the objective on the lazy shifted view is the objective at the eager point `r + s * dir` |
| Derivate.ValuesByDirection | headers/derivate.hpp:117-130 | one value per offset, value `k` being the objective at `r + shifts[k] * dir` |
| Derivate.DeriveByDirectionWith | headers/derivate.hpp:132-140 | the samples along `dir` at `p`'s offsets are combined with `p`'s own coefficients and multiplier |
| Derivate.DeriveByDirection | headers/derivate.hpp:142-146 | the directional derivative is the central five-point quotient of the objective at `r + s * dir` for `s = -2h, -h, h, 2h` |
| Derivate.DeriveByDirection3 | headers/derivate.hpp:148-152 | `derive_by_direction_3` as written is the one-sided quotient `(f(0) - f(-h)) / (2h)` along `dir` |
| Derivate.FivePointWeights | headers/derivate.hpp:46 | the weights `1, -8, 8, -1` cancel the constant, quadratic, cubic and quartic terms of a quartic and leave `12h` times its linear coefficient |
| Derivate.FivePointExact | headers/derivate.hpp:46 | the five-point quotient of samples of any quartic is its exact derivative at 0, for every `h != 0` |
| Derivate.DeriveByAxisExact | headers/derivate.hpp:89-93 | when the objective along axis `d` is a quartic in the offset, `derive_by_axis` is exactly its linear coefficient |
| Derivate.DeriveByDirectionExact | headers/derivate.hpp:142-146 | when the objective along `dir` is a quartic in the offset, `derive_by_direction` is exactly its linear coefficient |
| Derivate.DirectionAlongAxis | headers/derivate.hpp:142-146 | for any objective, the directional derivative along the unit vector of axis `i` equals the partial derivative along axis `i` |
| Derivate.CorrectedDeriveByAxisWith | headers/derivate.hpp:78-86 | the corrected `derive_by_axis` combines the samples at `p`'s offsets with `p`'s own coefficients and multiplier |
| Derivate.CorrectedAgreesOnFive | headers/derivate.hpp:89-93 | with the five-point table, the corrected and the as-written `derive_by_axis` agree for every objective |
| Derivate.CorrectedDeriveByAxis3 | headers/derivate.hpp:95-99 | the corrected three-point partial derivative is the central difference of the objective at `-h` and `h` along axis `d` |
| Derivate.CorrectedDeriveByDirection3 | headers/derivate.hpp:148-152 | the corrected three-point directional derivative is the central difference at `r - h * dir` and `r + h * dir` |
| Derivate.CentralDifferenceExact | headers/derivate.hpp:47 | for the corrected central table `{-1, 0, 1} / 2` that `three` evidently intends (not the as-written `{-1, 1, 0} / 2`), the central difference of samples of any quadratic is its exact derivative at 0 |
| Derivate.CorrectedDeriveByAxis3Exact | headers/derivate.hpp:95-99 | when the objective along axis `d` is quadratic, the corrected three-point partial derivative is exactly its slope |
| Derivate.CorrectedDeriveByDirection3Exact | headers/derivate.hpp:148-152 | when the objective along `dir` is quadratic, the corrected three-point directional derivative is exactly its slope |
| DerivateExamples.ParabolaAlongAxis | test/derivate.cpp:13-19 | along axis 0 the test's `x * (x - x0)` is a quadratic in the offset with slope `2x - x0` |
| DerivateExamples.ParabolaDerivative | test/derivate.cpp:21-34 | `derive_by_axis` of `x * (x - x0)` is exactly `2x - x0` at every point, for every `h != 0` |
| DerivateExamples.ParabolaDerivativeAt | test/derivate.cpp:25-30 | at the one-coordinate point `x`, `derive_by_axis` of `x * (x - x0)` is `2x - x0` |
| DerivateExamples.Derivate1DAtZero | test/derivate.cpp:31 | with `x0 = 2`, the derivative at 0 is -2 |
| DerivateExamples.Derivate1DAtOne | test/derivate.cpp:32 | with `x0 = 2`, the derivative at 1 is 0 |
| DerivateExamples.Derivate1DAtTen | test/derivate.cpp:33 | with `x0 = 2`, the derivative at 10 is 18 |
| DerivateExamples.Shifted2D | test/derivate.cpp:43-50 | `shifted_x` of `(1, 1)` on axis 1 by 277 shows `(1, 278)` |
| DerivateExamples.QuarticAlongAxis0 | test/derivate.cpp:36-41 | along axis 0 the test's `x^2 + (y^4 - y^2)` is a quadratic in the offset with slope `2x` |
| DerivateExamples.QuarticAlongAxis1 | test/derivate.cpp:36-41 | along axis 1 it is a quartic in the offset with slope `4y^3 - 2y` |
| DerivateExamples.QuarticPartial0 | test/derivate.cpp:52-61 | `derive_by_axis` along axis 0 is exactly `2x` at every point |
| DerivateExamples.QuarticPartial1 | test/derivate.cpp:52-61 | `derive_by_axis` along axis 1 is exactly `4y^3 - 2y` at every point |
| DerivateExamples.QuarticPartialsAt | test/derivate.cpp:57-58 | both partial derivatives at the point `(x, y)`: `2x` and `4y^3 - 2y` |
| DerivateExamples.DerivateByAxisND | test/derivate.cpp:59-60 | at `(1, 2)` the partial derivatives are 2 and 28 |
| DerivateExamples.QuarticGradient | test/derivate.cpp:69-70 | `auto_grad` at `(x, y)` is the exact gradient `[2x, 4y^3 - 2y]` |
| DerivateExamples.Derivate2D | test/derivate.cpp:63-75 | the gradients at `(1, 1)` and `(3, 2)` are `(2, 2)` and `(6, 28)` |
| DerivateExamples.QuarticAlongLine | test/derivate.cpp:36-41 | on the line `(x, y) + s (dx, dy)` the quartic objective is a quartic in `s` whose slope is the gradient dotted with `(dx, dy)` |
| DerivateExamples.QuarticDirectional | headers/derivate.hpp:142-146 | `derive_by_direction` of the quartic objective is exactly the gradient dotted with the direction, for every point, direction and `h` |
| DerivateExamples.ThreePointAxisDefect | headers/derivate.hpp:85 | on the identity, the as-written `derive_by_axis_3` at `x` is `-(7x + h) / (12h)`, not 1 |
| DerivateExamples.ThreePointAxisAtOrigin | headers/derivate.hpp:85 | on the identity at 0 with `h = 1`, the as-written `derive_by_axis_3` is `-1/12` |
| DerivateExamples.IdentityAxisDerivatives | headers/derivate.hpp:89-99 | on the identity, the five-point and the corrected three-point partial derivatives are both 1 |
| DerivateExamples.ThreePointDirectionHalves | headers/derivate.hpp:47 | along a line where the objective has slope `B`, the as-written `derive_by_direction_3` is `B / 2` |
| DerivateExamples.ThreePointDirectionDefect | headers/derivate.hpp:47 | on the identity along direction `(1)`, the as-written `derive_by_direction_3` is 1/2 and the corrected one is 1 |
| DerivateExamples.CorrectedParabolaDerivative | headers/derivate.hpp:95-99 | the corrected three-point partial derivative of `x * (x - x0)` is exactly `2x - x0` |
| Minimize1D.SourceNearlyGolden | headers/minimize_1d.hpp:4-5 | the two literals sum to `1 - 1e-57`, and `FPHI^2 + FPHI` falls short of 1 by less than `1e-56`, so they are not exactly golden |
| Minimize1D.Start | headers/minimize_1d.hpp:21-28 | whatever the order of the bounds, `a <= b` are the bounds, `h = b - a >= 0`, the probes sit at `a + h * short` and `a + h * long`, and both are evaluated |
| Minimize1D.Step | headers/minimize_1d.hpp:30-42 | one iteration shrinks `h` by `long`; it keeps `[a, d]` when `vc < vd` and `[c, b]` otherwise, reuses the surviving probe and its value, places the new probe at `a + h' * short` on the left side and at the new `a + h' * long` on the right side (`h'` the new width), and evaluates only that probe |
| Minimize1D.Shrink | headers/minimize_1d.hpp:30-42 | the loop body's assignments to `a, b, c, d, vc, vd, h` with the source's constants `SPHI` and `FPHI` make exactly one `Step` of the bracket |
| Minimize1D.Search | headers/minimize_1d.hpp:29-43 | the loop runs at most `max_steps` steps, and fewer only when the width has reached `tol`; the cached values stay the objective at the probes |
| Minimize1D.SearchWidth | headers/minimize_1d.hpp:33-39 | the final width is the initial width shrunk by `long` once per step taken |
| Minimize1D.WidthIsPow | headers/minimize_1d.hpp:33-39 | shrinking by `x` `k` times is scaling by `x^k`, so after `k` steps `h == (b0 - a0) * FPHI^k` |
| Minimize1D.GoldenRatioMinimize | headers/minimize_1d.hpp:15-50 | the loop over the locals ends at the functional search's final bracket; the flag is exactly `tol > h` there, and the estimate is `0.5 * (a + d)` when `vc < vd`, else `0.5 * (b + c)` |
| Minimize1D.AutoGoldenRatioMinimize | headers/minimize_1d.hpp:52-63 | the result is the search's estimate exactly when the search reports convergence, and otherwise the error "Divergence of GRM?!" |
| Minimize1D.SearchRanWhileWide | headers/minimize_1d.hpp:29 | every width at which the loop took a step exceeded `tol` |
| Minimize1D.BudgetSuffices | headers/minimize_1d.hpp:29-48 | if `n <= max_steps` shrinkings bring the width below `tol`, the loop takes at most `n` steps and reports convergence unless the width lands exactly on `tol` |
| Minimize1D.ExactToleranceNotConverged | headers/minimize_1d.hpp:29-47 | a bracket whose width equals `tol` takes no step and is reported as not converged, for example bounds `(0, 1)` with `tol = 1` |
| Minimize1D.StepKeepsPlacement | headers/minimize_1d.hpp:30-42 | with golden ratios, a step keeps `h == b - a` and both probes at their ratios of the new width |
| Minimize1D.LeftKeepsPlacement | headers/minimize_1d.hpp:31-36 | with golden ratios, keeping the left side places the bracket again: the old near probe is the new far probe |
| Minimize1D.RightKeepsPlacement | headers/minimize_1d.hpp:37-42 | with golden ratios, keeping the right side places the bracket again: the old far probe is the new near probe |
| Minimize1D.ProbesOrdered | headers/minimize_1d.hpp:26 | with golden ratios and a placed bracket, `a <= c <= d <= b`, with `c < d` when the width is positive |
| Minimize1D.StepKeepsMinimizer | headers/minimize_1d.hpp:30-42 | with golden ratios, a step never lowers `b` below nor raises `a` above the minimiser of a unimodal objective; `a` never decreases and `b` never increases |
| Minimize1D.IterateKeepsMinimizer | headers/minimize_1d.hpp:29-43 | with golden ratios, every bracket the loop reaches still holds the minimiser of a unimodal objective, is placed, has cached values and lies inside the first |
| Minimize1D.SearchKeepsMinimizer | headers/minimize_1d.hpp:29-43 | with golden ratios, the final bracket holds the minimiser, is placed, and lies inside the initial bracket |
| Minimize1D.Estimate | headers/minimize_1d.hpp:44-48 | the returned estimate is `0.5 * (a + d)` when `vc < vd`, else `0.5 * (b + c)` |
| Minimize1D.EstimateWithin | headers/minimize_1d.hpp:44-48 | with golden ratios, the returned midpoint lies in the final bracket |
| Minimize1D.GoldenAccuracy | headers/minimize_1d.hpp:15-50 | with golden ratios and a unimodal objective with its minimiser between the bounds, the estimate is within the final width of the minimiser, and within `tol` of it whenever convergence is reported |

## Left out

- `operator++` (headers/ranges.hpp:28-36) is not modelled, because it does not compile: it assigns to a `const` member and returns the wrong type.
- The `subs_iterator` copy constructor (headers/ranges.hpp:68-70) is not modelled, because it names a member `_end` that does not exist.
- The iterator `==`/`!=` (headers/ranges.hpp:37-45) compare `_current` and `_begin`. They are modelled by the structural equality of `Iterator`, and the iterator copy constructor (headers/ranges.hpp:25-27) by copying the value.
- Derivate.ShiftedX, Derivate.DeriveByAxis, Derivate.DeriveByAxis3 and Derivate.AutoGrad accept a `ConstRange` only. `shifted_x` (headers/derivate.hpp:50-54) returns `subs_range<typename Range::container>`, but neither `const_range` nor `subs_range` in headers/ranges.hpp declares `container`, so as written these templates accept no view at all. The model follows the evident intent: a `subs_range` over a `const_range` `r`. A `subs_range` passed as input is not modelled.
- The mutable `range<T>` and the non-const `at` that returns a writable reference are not modelled. Views are used read-only everywhere else.
- `bop_range` and `scalar_range` are used by headers/operations.hpp but declared in none of the headers of this model. They are modelled as `View.Bop` and `ScalarRange`, with their meaning taken from the tests (test/operations.cpp:20-34, test/ranges.cpp:76-84).
- `operator+`, `operator-` and `operator*` are not modelled separately. They are plain aliases of `sum`, `sub` and `mul`.
- The `bop`/`rbop` `std::function` aliases are not modelled. They are type spellings with no behaviour.
- The generic `derivative_props<pn>::shifts` template is not modelled. It returns the function itself instead of `ret_val` and cannot be instantiated. The specialisations for 3 and 5 points are modelled.
- Floating point is not modelled; reals are exact. This covers:
  - the default step `h = 1e-8`, which is a parameter here with `h != 0` required;
  - the default tolerance `tol = 1e-8` of `auto_golden_ratio_minimize` (headers/minimize_1d.hpp:56), which is a plain parameter here;
  - round-off against truncation error;
  - the `1e-4` test tolerances.

  The search test on `x^2 (x^2 - 5)` is therefore not modelled.
- The step budget of `auto_golden_ratio_minimize` is an input to the model. The source computes it with `std::log` (headers/minimize_1d.hpp:57-59).
- `headers/grad_minimize.hpp` is not part of this model. It duplicates the golden search and holds an unfinished draft of the automatic variant.
- The `ranges copy` headers and the scratch tests `test001`/`test002` are not part of this model.
- The unreachable `return {false, 0}` after the final `if` (headers/minimize_1d.hpp:49) has no counterpart.
- Console output in the tests is not modelled.
- Value types: the view tests use `int` data, and the model's views hold reals.
- Minimize1D.GoldenRatioMinimize: the number of calls to `f` is not counted. `Step` shows that each iteration reuses one cached value and evaluates one new probe.
- Minimize1D.StepKeepsPlacement: proved for ideal golden ratios only, not for the source's decimals. The decimals are not exactly golden (`SourceNearlyGolden`), so with them the placement error is multiplied at every step instead of staying zero, and after enough steps the probes can cross.
- Minimize1D.SearchKeepsMinimizer: `a` never decreasing, `b` never increasing and `h == b - a` are proved for ideal golden ratios only, for the same reason.
- Minimize1D.GoldenAccuracy: proved for ideal golden ratios only, for the same reason.

## Findings

| source | as written | input that shows it | evidently intended | confidence | as-written member | corrected member |
|---|---|---|---|---|---|---|
| headers/derivate.hpp:85 | `derive_by_axis` with a table `p` takes `p`'s offsets but always `five`'s coefficients and multiplier. `derive_by_axis_3` therefore weighs the samples at `-h, 0, h` by `1, -8, 0` over `12h`. | the identity at `x = 0` with `h = 1` gives `-1/12`, where the derivative is 1 | combine with `p`'s own table, as `derive_by_directiona` does | not executed | DerivateExamples.ThreePointAxisAtOrigin | Derivate.CorrectedDeriveByAxis3Exact |
| headers/derivate.hpp:47 | `three` is initialised with `{-1., 1.}`, so its table is `{-1, 1, 0} / 2`. Against the samples at `-h, 0, h` this gives the one-sided quotient over a base of `2h`. | the identity along the direction `(1)`, at any `x` with any `h`, gives `1/2`, where the derivative is 1 | the central table `{-1, 0, 1} / 2` | not executed | DerivateExamples.ThreePointDirectionDefect | Derivate.CorrectedDeriveByDirection3Exact |
