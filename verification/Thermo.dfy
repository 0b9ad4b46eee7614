/** The prototype's polynomial liquid: what its constructor checks, and what that is worth. */
module Thermo {
  import opened Wrappers
  import opened Numerics
  import opened Properties

  const TOLERANCE: real := 0.000000001

  /** The liquid with one range, used as its hard and as its evidence range. */
  function PolynomialLiquid(density: real, a: real, b: real, c: real, minimum: real, maximum: real,
      reference: real): Liquid {
    Liquid(density, a, b, c, reference, minimum, maximum, minimum, maximum)
  }

  /** The constructor's checks; of the heat capacity it looks at the two ends only. */
  predicate Accepted(l: Liquid) {
    && l.density > 0.0 && l.hardMinimum > 0.0 && l.hardMaximum > l.hardMinimum
    && l.hardMinimum <= l.referenceTemperature <= l.hardMaximum
    && l.HeatCapacity(l.hardMinimum) > 0.0 && l.HeatCapacity(l.hardMaximum) > 0.0
  }

  predicate InRange(l: Liquid, t: real) {
    l.hardMinimum <= t <= l.hardMaximum
  }

  /** Where the heat capacity turns. */
  function Turn(l: Liquid): real
    requires l.cpC > 0.0
  {
    -l.cpB / (2.0 * l.cpC)
  }

  /** The heat capacity does not dip to zero between the ends. */
  predicate NoDip(l: Liquid) {
    l.cpC > 0.0 && InRange(l, Turn(l)) ==> l.HeatCapacity(Turn(l)) > 0.0
  }

  /** The least heat capacity on the range. */
  function Least(l: Liquid): real {
    var ends := Min(l.HeatCapacity(l.hardMinimum), l.HeatCapacity(l.hardMaximum));
    if l.cpC > 0.0 && InRange(l, Turn(l)) then Min(ends, l.HeatCapacity(Turn(l))) else ends
  }

  lemma Difference(l: Liquid, x: real, y: real)
    ensures l.HeatCapacity(y) - l.HeatCapacity(x) == (y - x) * (l.cpB + l.cpC * (x + y))
  {
    var b, c := l.cpB, l.cpC;
    assert (y - x) * (b + c * (x + y)) == (y - x) * b + (y - x) * (c * (x + y));
    assert (y - x) * (c * (x + y)) == c * ((y - x) * (x + y));
    assert (y - x) * (x + y) == y * y - x * x;
    assert c * (y * y - x * x) == c * (y * y) - c * (x * x);
  }

  lemma TurnsThere(l: Liquid)
    requires l.cpC > 0.0
    ensures l.cpB == -2.0 * (l.cpC * Turn(l))
  {
    assert (2.0 * l.cpC) * Turn(l) == -l.cpB;
  }

  /** A product of a non-negative factor and one of known sign. */
  lemma SignOf(d: real, s: real)
    requires d >= 0.0
    ensures s >= 0.0 ==> d * s >= 0.0
    ensures s <= 0.0 ==> d * s <= 0.0
  {
  }

  lemma ConcaveAtLeastEnds(l: Liquid, t: real)
    requires l.cpC <= 0.0 && InRange(l, t)
    ensures l.HeatCapacity(t) >= Min(l.HeatCapacity(l.hardMinimum), l.HeatCapacity(l.hardMaximum))
  {
    var lo, hi := l.hardMinimum, l.hardMaximum;
    Difference(l, lo, t);
    Difference(l, t, hi);
    var left, right := l.cpB + l.cpC * (lo + t), l.cpB + l.cpC * (t + hi);
    assert left - right == -l.cpC * (hi - lo);
    SignOf(hi - lo, -l.cpC);
    hide Liquid.HeatCapacity;
    SignOf(t - lo, left);
    SignOf(hi - t, right);
  }

  /** By how much a parabola that turns at `v` rises from `x` to `t`. */
  function RiseByTurn(c: real, x: real, t: real, v: real): real {
    (t - x) * (c * (x + t - 2.0 * v))
  }

  lemma RightOfTurn(c: real, lo: real, t: real, v: real)
    requires c > 0.0 && v <= lo <= t
    ensures RiseByTurn(c, lo, t, v) >= 0.0
  {
    SignOf(c, lo + t - 2.0 * v);
    SignOf(t - lo, c * (lo + t - 2.0 * v));
  }

  lemma LeftOfTurn(c: real, hi: real, t: real, v: real)
    requires c > 0.0 && t <= hi <= v
    ensures RiseByTurn(c, hi, t, v) >= 0.0
  {
    SignOf(c, 2.0 * v - hi - t);
    SignOf(hi - t, c * (2.0 * v - hi - t));
    assert c * (hi + t - 2.0 * v) == -(c * (2.0 * v - hi - t));
  }

  lemma AtTurn(c: real, t: real, v: real)
    requires c > 0.0
    ensures RiseByTurn(c, v, t, v) >= 0.0
  {
    if t >= v { RightOfTurn(c, v, t, v); } else { LeftOfTurn(c, v, t, v); }
  }

  /** The difference from `x`, with the linear coefficient written by the turn. */
  lemma DifferenceByTurn(l: Liquid, x: real, t: real)
    requires l.cpC > 0.0
    ensures l.HeatCapacity(t) - l.HeatCapacity(x) == RiseByTurn(l.cpC, x, t, Turn(l))
  {
    TurnsThere(l);
    Difference(l, x, t);
    var c, v := l.cpC, Turn(l);
    hide Liquid.HeatCapacity, Turn;
    assert c * (x + t - 2.0 * v) == c * (x + t) - 2.0 * (c * v);
  }

  lemma ConvexAtLeastTurn(l: Liquid, t: real)
    requires l.cpC > 0.0 && InRange(l, t)
    ensures l.HeatCapacity(t) >= Least(l)
  {
    hide Liquid.HeatCapacity, Turn, RiseByTurn;
    if Turn(l) < l.hardMinimum {
      DifferenceByTurn(l, l.hardMinimum, t);
      RightOfTurn(l.cpC, l.hardMinimum, t, Turn(l));
    } else if Turn(l) > l.hardMaximum {
      DifferenceByTurn(l, l.hardMaximum, t);
      LeftOfTurn(l.cpC, l.hardMaximum, t, Turn(l));
    } else {
      DifferenceByTurn(l, Turn(l), t);
      AtTurn(l.cpC, t, Turn(l));
    }
  }

  lemma AtLeastLeast(l: Liquid, t: real)
    requires InRange(l, t)
    ensures l.HeatCapacity(t) >= Least(l)
  {
    if l.cpC > 0.0 { ConvexAtLeastTurn(l, t); } else { ConcaveAtLeastEnds(l, t); }
  }

  /** What an accepted liquid has a positive heat capacity throughout its range: exactly one whose
      heat capacity does not dip to zero between the ends. */
  lemma PositiveThroughoutIff(l: Liquid)
    requires Accepted(l)
    ensures (forall t :: InRange(l, t) ==> l.HeatCapacity(t) > 0.0) <==> NoDip(l)
  {
    hide Liquid.HeatCapacity, Turn;
    if NoDip(l) {
      assert Least(l) > 0.0;
      forall t | InRange(l, t) ensures l.HeatCapacity(t) > 0.0 { AtLeastLeast(l, t); }
    } else {
      assert InRange(l, Turn(l)) && l.HeatCapacity(Turn(l)) <= 0.0;
    }
  }

  /** An accepted liquid whose heat capacity is negative in the middle of its range. */
  const DIPPING := PolynomialLiquid(1000.0, 24.0, -10.0, 1.0, 1.0, 9.0, 5.0)

  lemma AcceptanceIsNotEnough()
    ensures Accepted(DIPPING) && InRange(DIPPING, 5.0) && DIPPING.HeatCapacity(5.0) < 0.0
    ensures DIPPING.Enthalpy(5.5) < DIPPING.Enthalpy(4.5)
  {
    var l := DIPPING;
    assert l.HeatCapacity(1.0) == 15.0 && l.HeatCapacity(5.0) == -1.0;
    assert l.HeatCapacity(9.0) == 24.0 - 90.0 + 81.0;
    var x, y := 4.5, 5.5;
    assert y * y - x * x == 10.0 && y * y * y - x * x * x == 75.25;
    EnthalpyRise(l, x, y);
  }

  /** `temperature_from_enthalpy`. */
  method TemperatureFromSpecificEnthalpy(l: Liquid, h: real) returns (r: Result<real, RootError>)
    ensures r == BisectSpec(l.Residual(h), l.hardMinimum, l.hardMaximum, TOLERANCE, HALVINGS)
  {
    r := Bisect(l.Residual(h), l.hardMinimum, l.hardMaximum, TOLERANCE, HALVINGS);
  }

  /** Inverting the enthalpy of a temperature of the range returns it up to the tolerance and the
      tolerance divided by the least heat capacity. */
  lemma EnthalpyInverts(l: Liquid, t: real)
    requires Accepted(l) && NoDip(l) && InRange(l, t)
    requires l.hardMaximum - l.hardMinimum <= TOLERANCE * Pow2(HALVINGS - 1)
    ensures Least(l) > 0.0
    ensures var r := BisectSpec(l.Residual(l.Enthalpy(t)), l.hardMinimum, l.hardMaximum, TOLERANCE, HALVINGS);
      r.Success? && Abs(r.value - t) <= SearchError(TOLERANCE, TOLERANCE, Least(l))
  {
    var h, slope := l.Enthalpy(t), Least(l);
    var f := l.Residual(h);
    assert slope > 0.0;
    forall x | InRange(l, x) ensures l.HeatCapacity(x) >= slope { AtLeastLeast(l, x); }
    ResidualRises(l, h, slope);
    assert f(t) == 0.0;
    hide Liquid.Enthalpy, Liquid.HeatCapacity, Least, BisectFrom;
    RootFound(f, l.hardMinimum, l.hardMaximum, slope, t);
  }

  /** A function that rises at least by a slope has its root found. */
  lemma RootFound(f: real -> real, lower: real, upper: real, slope: real, t: real)
    requires slope > 0.0 && RisesBy(f, lower, upper, slope) && lower <= t <= upper && f(t) == 0.0
    requires upper - lower <= TOLERANCE * Pow2(HALVINGS - 1)
    ensures var r := BisectSpec(f, lower, upper, TOLERANCE, HALVINGS);
      r.Success? && Abs(r.value - t) <= SearchError(TOLERANCE, TOLERANCE, slope)
  {
    hide BisectFrom, SearchError;
    RisingOrder(f, lower, upper, slope, lower, t);
    RisingOrder(f, lower, upper, slope, t, upper);
    ErrorPositive(slope);
    if f(lower) != 0.0 && f(upper) != 0.0 {
      assert f(lower) < 0.0 < f(upper);
      SearchRejects(f, lower, upper, TOLERANCE, TOLERANCE, HALVINGS);
      BisectConverges(f, lower, upper, f(lower), TOLERANCE, TOLERANCE, HALVINGS);
      OppositeSigns(f(lower), f(upper));
      BisectAccuracy(f, lower, upper, slope, t, TOLERANCE, TOLERANCE, HALVINGS);
    }
  }

  lemma ErrorPositive(slope: real)
    requires slope > 0.0
    ensures SearchError(TOLERANCE, TOLERANCE, slope) > 0.0
  {
  }

  lemma OppositeSigns(x: real, y: real)
    requires x < 0.0 < y
    ensures SignChange(x, y)
  {
  }
}
