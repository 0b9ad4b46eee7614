/** Bracketed bisection over exact reals: the loop shared by the property inversion
    and the prototype root finder. */
module Numerics {
  import opened Wrappers

  function Abs(x: real): real {
    if x < 0.0 then -x else x
  }

  function Min(x: real, y: real): real {
    if x <= y then x else y
  }

  function Max(x: real, y: real): real {
    if x >= y then x else y
  }

  function Pow2(k: nat): (r: real)
    ensures r >= 1.0
  {
    if k == 0 then 1.0 else 2.0 * Pow2(k - 1)
  }

  datatype RootError = NotBracketed | NotConverged

  /** What `steps` passes of the loop return from the bracket `[lower, upper]`, where
      `fLower` is the residual remembered for the lower end. */
  function BisectFrom(f: real -> real, lower: real, upper: real, fLower: real,
                      residualTol: real, widthTol: real, steps: nat): Result<real, RootError>
    decreases steps
  {
    if steps == 0 then Failure(NotConverged)
    else
      var midpoint := 0.5 * (lower + upper);
      var residual := f(midpoint);
      if Abs(residual) <= residualTol || upper - lower <= widthTol then Success(midpoint)
      else if fLower * residual <= 0.0 then
        BisectFrom(f, lower, midpoint, fLower, residualTol, widthTol, steps - 1)
      else
        BisectFrom(f, midpoint, upper, residual, residualTol, widthTol, steps - 1)
  }

  /** A search that rejects a bracket whose ends have one sign. */
  function SearchSpec(f: real -> real, lower: real, upper: real,
                      residualTol: real, widthTol: real, iterations: nat): Result<real, RootError>
  {
    if f(lower) * f(upper) > 0.0 then Failure(NotBracketed)
    else BisectFrom(f, lower, upper, f(lower), residualTol, widthTol, iterations)
  }

  /** `bisect`: its two end-point shortcuts, then the search with one tolerance. */
  function BisectSpec(f: real -> real, lower: real, upper: real, tol: real, maximumIterations: nat)
    : Result<real, RootError>
  {
    if f(lower) == 0.0 then Success(lower)
    else if f(upper) == 0.0 then Success(upper)
    else SearchSpec(f, lower, upper, tol, tol, maximumIterations)
  }

  method Search(f: real -> real, lower0: real, upper0: real,
                residualTol: real, widthTol: real, iterations: nat)
    returns (r: Result<real, RootError>)
    ensures r == SearchSpec(f, lower0, upper0, residualTol, widthTol, iterations)
  {
    var lower, upper := lower0, upper0;
    var lowerResidual, upperResidual := f(lower), f(upper);
    if lowerResidual * upperResidual > 0.0 { return Failure(NotBracketed); }
    for i := 0 to iterations
      invariant BisectFrom(f, lower, upper, lowerResidual, residualTol, widthTol, iterations - i)
             == BisectFrom(f, lower0, upper0, f(lower0), residualTol, widthTol, iterations)
    {
      var midpoint := 0.5 * (lower + upper);
      var residual := f(midpoint);
      if Abs(residual) <= residualTol || upper - lower <= widthTol { return Success(midpoint); }
      if lowerResidual * residual <= 0.0 {
        upper := midpoint;
      } else {
        lower := midpoint;
        lowerResidual := residual;
      }
    }
    return Failure(NotConverged);
  }

  method Bisect(f: real -> real, lower: real, upper: real, tol: real, maximumIterations: nat)
    returns (r: Result<real, RootError>)
    ensures r == BisectSpec(f, lower, upper, tol, maximumIterations)
  {
    if f(lower) == 0.0 { return Success(lower); }
    if f(upper) == 0.0 { return Success(upper); }
    r := Search(f, lower, upper, tol, tol, maximumIterations);
  }

  ghost predicate SignChange(x: real, y: real) {
    x * y <= 0.0
  }

  /** A width halved `k` times. */
  function Halved(width: real, k: nat): real {
    width / Pow2(k)
  }

  /** The bracket a successful search stopped in: nested in the first one, still holding
      a sign change, its width the first width halved `k` times, the answer its centre. */
  ghost predicate StopBracket(f: real -> real, lower: real, upper: real, a: real, b: real, k: nat, m: real) {
    && lower <= a <= b <= upper
    && b - a == Halved(upper - lower, k)
    && SignChange(f(a), f(b))
    && m == 0.5 * (a + b)
  }

  /** When the loop halves onto the upper part, the sign change moves with it. */
  lemma SignChangeMovesUp(l: real, m: real, u: real)
    requires SignChange(l, u) && l * m > 0.0
    ensures SignChange(m, u)
  {
    if l > 0.0 {
      assert m > 0.0 && u <= 0.0;
    } else {
      assert m < 0.0 && u >= 0.0;
    }
  }

  /** A stopping bracket of one half is a stopping bracket of the whole, one halving later. */
  lemma StopBracketWidens(f: real -> real, lower: real, upper: real, l: real, u: real,
                          a: real, b: real, k: nat, m: real)
    requires lower <= l <= u <= upper && u - l == 0.5 * (upper - lower)
    requires StopBracket(f, l, u, a, b, k, m)
    ensures StopBracket(f, lower, upper, a, b, k + 1, m)
  {
    assert (0.5 * (upper - lower)) / Pow2(k) == (upper - lower) / Pow2(k + 1);
  }

  lemma {:induction false} BisectStops(f: real -> real, lower: real, upper: real,
                                       residualTol: real, widthTol: real, steps: nat)
    returns (a: real, b: real, k: nat)
    requires lower <= upper && SignChange(f(lower), f(upper))
    requires BisectFrom(f, lower, upper, f(lower), residualTol, widthTol, steps).Success?
    ensures k < steps
    ensures var m := BisectFrom(f, lower, upper, f(lower), residualTol, widthTol, steps).value;
            && StopBracket(f, lower, upper, a, b, k, m)
            && (Abs(f(m)) <= residualTol || b - a <= widthTol)
    decreases steps
  {
    var midpoint := 0.5 * (lower + upper);
    var residual := f(midpoint);
    if Abs(residual) <= residualTol || upper - lower <= widthTol {
      a, b, k := lower, upper, 0;
    } else if f(lower) * residual <= 0.0 {
      a, b, k := BisectStops(f, lower, midpoint, residualTol, widthTol, steps - 1);
      var m := BisectFrom(f, lower, midpoint, f(lower), residualTol, widthTol, steps - 1).value;
      StopBracketWidens(f, lower, upper, lower, midpoint, a, b, k, m);
      k := k + 1;
    } else {
      SignChangeMovesUp(f(lower), residual, f(upper));
      a, b, k := BisectStops(f, midpoint, upper, residualTol, widthTol, steps - 1);
      var m := BisectFrom(f, midpoint, upper, residual, residualTol, widthTol, steps - 1).value;
      StopBracketWidens(f, lower, upper, midpoint, upper, a, b, k, m);
      k := k + 1;
    }
  }

  /** Non-convergence is unreachable once `steps - 1` halvings bring the width to the
      tolerance. */
  lemma {:induction false} BisectConverges(f: real -> real, lower: real, upper: real, fLower: real,
                                           residualTol: real, widthTol: real, steps: nat)
    requires steps > 0 && upper - lower <= widthTol * Pow2(steps - 1)
    ensures BisectFrom(f, lower, upper, fLower, residualTol, widthTol, steps).Success?
    decreases steps
  {
    var midpoint := 0.5 * (lower + upper);
    var residual := f(midpoint);
    assert Pow2(0) == 1.0;
    if Abs(residual) <= residualTol || upper - lower <= widthTol || steps == 1 {
    } else {
      assert widthTol * Pow2(steps - 1) == 2.0 * (widthTol * Pow2(steps - 2));
      if fLower * residual <= 0.0 {
        BisectConverges(f, lower, midpoint, fLower, residualTol, widthTol, steps - 1);
      } else {
        BisectConverges(f, midpoint, upper, residual, residualTol, widthTol, steps - 1);
      }
    }
  }

  /** The function rises by at least `slope` per unit over the bracket. */
  ghost predicate RisesBy(f: real -> real, lower: real, upper: real, slope: real) {
    forall x, y {:trigger f(x), f(y)} :: lower <= x <= y <= upper ==> f(y) - f(x) >= slope * (y - x)
  }

  lemma QuotientBound(slope: real, gap: real, residual: real)
    requires slope > 0.0 && slope * gap <= residual
    ensures gap <= residual / slope
  {
    assert gap == (slope * gap) / slope;
    DivideMonotone(slope * gap, residual, slope);
  }

  lemma DivideMonotone(x: real, y: real, c: real)
    requires c > 0.0 && x <= y
    ensures x / c <= y / c
  {
  }

  function Product(x: real, y: real): real {
    x * y
  }

  lemma ProductPositive(x: real, y: real)
    requires x > 0.0 && y > 0.0
    ensures Product(x, y) > 0.0
  {
  }

  lemma RisesAt(f: real -> real, lower: real, upper: real, slope: real, x: real, y: real)
    requires RisesBy(f, lower, upper, slope) && lower <= x <= y <= upper
    ensures f(y) - f(x) >= Product(slope, y - x)
  {
  }

  /** Of two points the one with the larger value is the larger. */
  lemma RisingOrder(f: real -> real, lower: real, upper: real, slope: real, x: real, y: real)
    requires slope > 0.0 && RisesBy(f, lower, upper, slope)
    requires lower <= x <= upper && lower <= y <= upper
    ensures x < y ==> f(x) < f(y)
    ensures f(x) <= f(y) ==> x <= y
  {
    hide RisesBy, Product;
    if x < y {
      ProductPositive(slope, y - x);
      RisesAt(f, lower, upper, slope, x, y);
    } else if y < x {
      ProductPositive(slope, x - y);
      RisesAt(f, lower, upper, slope, y, x);
    }
  }

  lemma RisingGap(f: real -> real, lower: real, upper: real, slope: real, x: real, y: real, gap: real)
    requires slope > 0.0 && RisesBy(f, lower, upper, slope)
    requires lower <= x <= upper && lower <= y <= upper
    requires f(y) - f(x) <= gap && gap >= 0.0
    ensures y - x <= gap / slope
  {
    DivideMonotone(0.0, gap, slope);
    if x < y {
      assert f(y) - f(x) >= slope * (y - x);
      QuotientBound(slope, y - x, gap);
    }
  }

  /** In a bracket of a rising function with a sign change, the zero level is between the
      ends: nothing at or below it is above `b`, nothing at or above it is below `a`. */
  lemma LevelInside(f: real -> real, lower: real, upper: real, slope: real, a: real, b: real, x: real)
    requires slope > 0.0 && RisesBy(f, lower, upper, slope)
    requires lower <= a <= b <= upper && SignChange(f(a), f(b)) && lower <= x <= upper
    ensures f(x) <= 0.0 ==> x <= b
    ensures f(x) >= 0.0 ==> a <= x
  {
    RisingOrder(f, lower, upper, slope, a, b);
    RisingOrder(f, lower, upper, slope, b, x);
    RisingOrder(f, lower, upper, slope, x, a);
    SameSign(f(a), f(b));
  }

  /** The distance from the root a successful search may have. */
  function SearchError(residualTol: real, widthTol: real, slope: real): real
    requires slope > 0.0
  {
    Max(0.5 * widthTol, residualTol / slope)
  }

  /** The error bound of the loop on a rising function: the answer is not below any point
      at or under the zero level, and not above any point at or over it, by more than half
      the width tolerance or the residual tolerance divided by the slope. At a root both
      hold, which bounds the distance to it. */
  lemma BisectAccuracy(f: real -> real, lower: real, upper: real, slope: real, x: real,
                       residualTol: real, widthTol: real, steps: nat)
    requires slope > 0.0 && RisesBy(f, lower, upper, slope) && residualTol >= 0.0
    requires lower <= x <= upper && SignChange(f(lower), f(upper))
    requires BisectFrom(f, lower, upper, f(lower), residualTol, widthTol, steps).Success?
    ensures var m := BisectFrom(f, lower, upper, f(lower), residualTol, widthTol, steps).value;
            var error := SearchError(residualTol, widthTol, slope);
            && lower <= m <= upper
            && (f(x) <= 0.0 ==> x - error <= m)
            && (f(x) >= 0.0 ==> m <= x + error)
  {
    var a, b, k := BisectStops(f, lower, upper, residualTol, widthTol, steps);
    var m := BisectFrom(f, lower, upper, f(lower), residualTol, widthTol, steps).value;
    if Abs(f(m)) <= residualTol {
      if f(x) <= 0.0 { RisingGap(f, lower, upper, slope, m, x, residualTol); }
      if f(x) >= 0.0 { RisingGap(f, lower, upper, slope, x, m, residualTol); }
    } else {
      LevelInside(f, lower, upper, slope, a, b, x);
    }
  }

  /** The search rejects a bracket exactly when both ends are nonzero with one sign. */
  lemma SearchRejects(f: real -> real, lower: real, upper: real,
                      residualTol: real, widthTol: real, iterations: nat)
    ensures SearchSpec(f, lower, upper, residualTol, widthTol, iterations) == Failure(NotBracketed)
        <==> (f(lower) > 0.0 && f(upper) > 0.0) || (f(lower) < 0.0 && f(upper) < 0.0)
  {
    NeverNotBracketed(f, lower, upper, f(lower), residualTol, widthTol, iterations);
    SameSign(f(lower), f(upper));
  }

  lemma SameSign(x: real, y: real)
    ensures x * y > 0.0 <==> (x > 0.0 && y > 0.0) || (x < 0.0 && y < 0.0)
  {
    if x > 0.0 {
      assert y > 0.0 ==> x * y > 0.0;
      assert y <= 0.0 ==> x * y <= 0.0;
    } else {
      assert x < 0.0 && y < 0.0 ==> x * y > 0.0;
      assert y >= 0.0 ==> x * y <= 0.0;
    }
  }

  lemma {:induction false} NeverNotBracketed(f: real -> real, lower: real, upper: real, fLower: real,
                                             residualTol: real, widthTol: real, steps: nat)
    ensures BisectFrom(f, lower, upper, fLower, residualTol, widthTol, steps) != Failure(NotBracketed)
    decreases steps
  {
    if steps > 0 {
      var midpoint := 0.5 * (lower + upper);
      NeverNotBracketed(f, lower, midpoint, fLower, residualTol, widthTol, steps - 1);
      NeverNotBracketed(f, midpoint, upper, f(midpoint), residualTol, widthTol, steps - 1);
    }
  }
}
