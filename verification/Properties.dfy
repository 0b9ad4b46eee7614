/** The reference liquid, its enthalpy inversion and the single-phase flash. */
module Properties {
  import opened Wrappers
  import opened Numerics

  type Id = nat

  datatype Validity = Unknown | Valid | Extrapolated | Invalid

  datatype EvalError =
    | MissingValue
    | NonPositiveHeatCapacity
    | OutsideHardDomain
    | InversionNotConverged
    | WrongPackage
    | NotPureFluid
    | UnknownMaterial
    | UnknownPackage
    | NotAFlashRequest
    | RejectedInput
    | DivisionByZero

  const RESIDUAL_TOLERANCE: real := 0.00000001
  const WIDTH_TOLERANCE: real := 0.000000001
  const HALVINGS: nat := 200

  datatype Liquid = Liquid(
    density: real,
    cpA: real, cpB: real, cpC: real,
    referenceTemperature: real,
    evidenceMinimum: real, evidenceMaximum: real,
    hardMinimum: real, hardMaximum: real)
  {
    function HeatCapacity(t: real): real {
      cpA + cpB * t + cpC * (t * t)
    }

    /** `cp`: the heat capacity, or the exception when it is not positive. */
    function Cp(t: real): Result<real, EvalError> {
      if HeatCapacity(t) <= 0.0 then Failure(NonPositiveHeatCapacity) else Success(HeatCapacity(t))
    }

    function Enthalpy(t: real): real {
      var t0 := referenceTemperature;
      cpA * (t - t0) + 0.5 * cpB * (t * t - t0 * t0) + cpC / 3.0 * (t * t * t - t0 * t0 * t0)
    }

    function Residual(h: real): real -> real {
      t => Enthalpy(t) - h
    }

    /** `temperature_from_enthalpy` over the hard range. */
    function TemperatureFromEnthalpy(h: real): Result<real, EvalError> {
      match SearchSpec(Residual(h), hardMinimum, hardMaximum, RESIDUAL_TOLERANCE, WIDTH_TOLERANCE, HALVINGS)
      case Success(t) => Success(t)
      case Failure(NotBracketed) => Failure(OutsideHardDomain)
      case Failure(NotConverged) => Failure(InversionNotConverged)
    }

    method InvertEnthalpy(h: real) returns (r: Result<real, EvalError>)
      ensures r == TemperatureFromEnthalpy(h)
    {
      var t := Search(Residual(h), hardMinimum, hardMaximum, RESIDUAL_TOLERANCE, WIDTH_TOLERANCE, HALVINGS);
      match t
      case Success(value) => r := Success(value);
      case Failure(NotBracketed) => r := Failure(OutsideHardDomain);
      case Failure(NotConverged) => r := Failure(InversionNotConverged);
    }

    /** The heat capacity is at least `slope` everywhere on the hard range. */
    ghost predicate HeatCapacityAtLeast(slope: real) {
      && slope > 0.0
      && hardMinimum <= hardMaximum
      && forall t :: hardMinimum <= t <= hardMaximum ==> HeatCapacity(t) >= slope
    }
  }

  lemma DifferenceOfSquares(x: real, y: real)
    ensures y * y - x * x == (y - x) * (x + y)
  {
  }

  lemma DifferenceOfCubes(x: real, y: real)
    ensures y * y * y - x * x * x == (y - x) * (x * x + x * y + y * y)
  {
  }

  lemma SquareOfMean(x: real, y: real)
    ensures var m := 0.5 * (x + y); x * x + 4.0 * (m * m) + y * y == 2.0 * (x * x + x * y + y * y)
  {
  }

  lemma Distribute(c: real, p: real, q: real)
    ensures c * p - c * q == c * (p - q)
    ensures c * p + c * q == c * (p + q)
  {
  }

  /** The rise in enthalpy, with the reference temperature gone. */
  lemma EnthalpyRise(l: Liquid, x: real, y: real)
    ensures l.Enthalpy(y) - l.Enthalpy(x)
         == l.cpA * (y - x) + 0.5 * l.cpB * (y * y - x * x) + l.cpC / 3.0 * (y * y * y - x * x * x)
  {
    var t0 := l.referenceTemperature;
    Distribute(l.cpA, y - t0, x - t0);
    Distribute(0.5 * l.cpB, y * y - t0 * t0, x * x - t0 * t0);
    Distribute(l.cpC / 3.0, y * y * y - t0 * t0 * t0, x * x * x - t0 * t0 * t0);
  }

  /** Simpson's mean of the heat capacity over `[x, y]`. */
  function MeanHeatCapacity(l: Liquid, x: real, y: real): real {
    (l.HeatCapacity(x) + 4.0 * l.HeatCapacity(0.5 * (x + y)) + l.HeatCapacity(y)) / 6.0
  }

  lemma MeanHeatCapacityExpanded(l: Liquid, x: real, y: real)
    ensures MeanHeatCapacity(l, x, y)
         == l.cpA + 0.5 * l.cpB * (x + y) + l.cpC / 3.0 * (x * x + x * y + y * y)
  {
    var m := 0.5 * (x + y);
    SquareOfMean(x, y);
    Distribute(l.cpC, x * x, 4.0 * (m * m));
    Distribute(l.cpC, x * x + 4.0 * (m * m), y * y);
    Distribute(l.cpB, x, y);
    assert l.cpC * (4.0 * (m * m)) == 4.0 * (l.cpC * (m * m));
  }

  /** Enthalpy is the exact integral of the quadratic heat capacity: Simpson's rule on
      `[x, y]` has no error. */
  lemma EnthalpyIntegratesHeatCapacity(l: Liquid, x: real, y: real)
    ensures l.Enthalpy(y) - l.Enthalpy(x) == (y - x) * MeanHeatCapacity(l, x, y)
  {
    hide Liquid.Enthalpy, MeanHeatCapacity;
    EnthalpyRise(l, x, y);
    MeanHeatCapacityExpanded(l, x, y);
    DifferenceOfSquares(x, y);
    DifferenceOfCubes(x, y);
    FactorRise(l.Enthalpy(y) - l.Enthalpy(x), MeanHeatCapacity(l, x, y), y - x, l.cpA, 0.5 * l.cpB, l.cpC / 3.0,
               x + y, x * x + x * y + y * y, y * y - x * x, y * y * y - x * x * x);
  }

  lemma ZeroAtReference(l: Liquid)
    ensures l.Enthalpy(l.referenceTemperature) == 0.0
  {
    var t0 := l.referenceTemperature;
    assert t0 * t0 - t0 * t0 == 0.0 && t0 * t0 * t0 - t0 * t0 * t0 == 0.0;
  }

  /** Enthalpy is counted from the reference temperature on. */
  lemma EnthalpyFromReference(l: Liquid, t: real)
    ensures l.Enthalpy(t) == (t - l.referenceTemperature) * MeanHeatCapacity(l, l.referenceTemperature, t)
  {
    hide Liquid.Enthalpy, MeanHeatCapacity;
    ZeroAtReference(l);
    EnthalpyIntegratesHeatCapacity(l, l.referenceTemperature, t);
  }

  lemma FactorRise(rise: real, mean: real, d: real, a: real, b: real, c: real, s: real, q: real,
                   squares: real, cubes: real)
    requires rise == a * d + b * squares + c * cubes && mean == a + b * s + c * q
    requires squares == d * s && cubes == d * q
    ensures rise == d * mean
  {
    assert b * (d * s) == d * (b * s) && c * (d * q) == d * (c * q);
    assert d * mean == d * a + d * (b * s) + d * (c * q);
  }

  /** Positive heat capacity makes the enthalpy residual rise. */
  lemma ResidualRises(l: Liquid, h: real, slope: real)
    requires l.HeatCapacityAtLeast(slope)
    ensures RisesBy(l.Residual(h), l.hardMinimum, l.hardMaximum, slope)
  {
    hide Liquid.HeatCapacity, Liquid.Enthalpy;
    forall x, y {:trigger l.Residual(h)(x), l.Residual(h)(y)} | l.hardMinimum <= x <= y <= l.hardMaximum
      ensures l.Residual(h)(y) - l.Residual(h)(x) >= slope * (y - x)
    {
      EnthalpyIntegratesHeatCapacity(l, x, y);
      assert l.HeatCapacity(0.5 * (x + y)) >= slope;
      ScaleMonotone(y - x, slope, MeanHeatCapacity(l, x, y));
    }
  }

  lemma ScaleMonotone(d: real, p: real, q: real)
    requires d >= 0.0 && p <= q
    ensures p * d <= d * q
  {
  }

  /** Two hundred halvings are enough for every hard range up to 2^199 width tolerances. */
  lemma InversionConverges(l: Liquid, h: real)
    requires l.hardMaximum - l.hardMinimum <= WIDTH_TOLERANCE * Pow2(HALVINGS - 1)
    ensures l.TemperatureFromEnthalpy(h) != Failure(InversionNotConverged)
  {
    BisectConverges(l.Residual(h), l.hardMinimum, l.hardMaximum, l.Residual(h)(l.hardMinimum),
                    RESIDUAL_TOLERANCE, WIDTH_TOLERANCE, HALVINGS);
  }

  /** With positive heat capacity the inversion rejects exactly the enthalpies that no
      temperature at the two ends of the hard range brackets. */
  lemma InversionRejects(l: Liquid, h: real, slope: real)
    requires l.HeatCapacityAtLeast(slope)
    ensures l.TemperatureFromEnthalpy(h) == Failure(OutsideHardDomain)
       <==> h < l.Enthalpy(l.hardMinimum) || l.Enthalpy(l.hardMaximum) < h
  {
    ResidualRises(l, h, slope);
    RisingOrder(l.Residual(h), l.hardMinimum, l.hardMaximum, slope, l.hardMinimum, l.hardMaximum);
    SearchRejects(l.Residual(h), l.hardMinimum, l.hardMaximum, RESIDUAL_TOLERANCE, WIDTH_TOLERANCE, HALVINGS);
  }

  /** The largest temperature error of an inversion. */
  function InversionError(slope: real): (e: real)
    requires slope > 0.0
  {
    SearchError(RESIDUAL_TOLERANCE, WIDTH_TOLERANCE, slope)
  }

  /** The inverted temperature is ordered against every temperature `t` of the hard range
      as their enthalpies are, up to the inversion error. */
  lemma InversionOrder(l: Liquid, h: real, slope: real, t: real)
    requires l.HeatCapacityAtLeast(slope) && l.hardMinimum <= t <= l.hardMaximum
    requires l.TemperatureFromEnthalpy(h).Success?
    ensures var m := l.TemperatureFromEnthalpy(h).value;
            && l.hardMinimum <= m <= l.hardMaximum
            && (l.Enthalpy(t) <= h ==> t - InversionError(slope) <= m)
            && (l.Enthalpy(t) >= h ==> m <= t + InversionError(slope))
  {
    hide Liquid.Enthalpy, SearchError, BisectFrom;
    ResidualRises(l, h, slope);
    BisectAccuracy(l.Residual(h), l.hardMinimum, l.hardMaximum, slope, t,
                   RESIDUAL_TOLERANCE, WIDTH_TOLERANCE, HALVINGS);
  }

  /** Round trip: inverting the enthalpy of a hard-range temperature succeeds and returns
      that temperature up to the inversion error. */
  lemma InversionRoundTrip(l: Liquid, slope: real, t: real)
    requires l.HeatCapacityAtLeast(slope) && l.hardMinimum <= t <= l.hardMaximum
    requires l.hardMaximum - l.hardMinimum <= WIDTH_TOLERANCE * Pow2(HALVINGS - 1)
    ensures var r := l.TemperatureFromEnthalpy(l.Enthalpy(t));
            r.Success? && Abs(r.value - t) <= InversionError(slope)
  {
    var h := l.Enthalpy(t);
    ResidualRises(l, h, slope);
    RisingOrder(l.Residual(h), l.hardMinimum, l.hardMaximum, slope, l.hardMinimum, t);
    RisingOrder(l.Residual(h), l.hardMinimum, l.hardMaximum, slope, t, l.hardMaximum);
    InversionRejects(l, h, slope);
    InversionConverges(l, h);
    InversionOrder(l, h, slope, t);
  }

  /** The inversion is monotone up to twice its error. */
  lemma InversionMonotone(l: Liquid, slope: real, h1: real, h2: real)
    requires l.HeatCapacityAtLeast(slope) && h1 <= h2
    requires l.TemperatureFromEnthalpy(h1).Success? && l.TemperatureFromEnthalpy(h2).Success?
    ensures l.TemperatureFromEnthalpy(h1).value <= l.TemperatureFromEnthalpy(h2).value + 2.0 * InversionError(slope)
  {
    hide Liquid.TemperatureFromEnthalpy, Liquid.Enthalpy, InversionError;
    var m1, m2 := l.TemperatureFromEnthalpy(h1).value, l.TemperatureFromEnthalpy(h2).value;
    var error := InversionError(slope);
    InversionOrder(l, h1, slope, l.hardMinimum);
    InversionOrder(l, h2, slope, l.hardMinimum);
    // A temperature strictly between the two answers, were they further apart.
    var t := m2 + error + 0.5 * (m1 - m2 - 2.0 * error);
    InversionErrorPositive(slope);
    if l.hardMinimum <= t <= l.hardMaximum {
      InversionOrder(l, h1, slope, t);
      InversionOrder(l, h2, slope, t);
    }
  }

  lemma InversionErrorPositive(slope: real)
    requires slope > 0.0
    ensures InversionError(slope) > 0.0
  {
  }
}
