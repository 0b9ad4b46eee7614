/** Streams whose thermodynamic state came from a flash, and what the exchanger may do to them. */
module SecondLaw {
  import opened Wrappers
  import opened Numerics
  import opened Properties
  import opened Flash
  import opened Models
  import opened Catalogue
  import opened Balances

  /** The state is the answer of a flash at its own temperature, or at its own enthalpy. */
  predicate Flashed(registry: Registry, s: MaterialState) {
    && s.composition == s.thermo.composition
    && (|| FlashTP(registry, s.thermo.package, s.composition, s.thermo.temperature, s.thermo.pressure)
           == Success(s.thermo)
        || FlashHP(registry, s.thermo.package, s.composition, s.thermo.enthalpy, s.thermo.pressure)
           == Success(s.thermo))
  }

  function StreamLiquid(registry: Registry, s: MaterialState): Liquid
    requires Flashed(registry, s)
  {
    LiquidOf(registry, s.thermo.package, s.composition).value
  }

  /** Heat capacity bounded below, over a range the inversion can always halve down. */
  ghost predicate Regular(l: Liquid, slope: real) {
    && l.HeatCapacityAtLeast(slope)
    && l.hardMaximum - l.hardMinimum <= WIDTH_TOLERANCE * Pow2(HALVINGS - 1)
  }

  /** A flashed enthalpy is one the liquid can have, and is ordered against every
      temperature's enthalpy as its own temperature is, up to the inversion error. */
  lemma FlashedOrder(registry: Registry, s: MaterialState, slope: real, t: real)
    requires Flashed(registry, s)
    requires var l := StreamLiquid(registry, s);
             Regular(l, slope) && l.hardMinimum <= t <= l.hardMaximum
    ensures var l := StreamLiquid(registry, s);
            && l.hardMinimum <= s.thermo.temperature <= l.hardMaximum
            && l.TemperatureFromEnthalpy(s.thermo.enthalpy).Success?
            && (l.Enthalpy(t) <= s.thermo.enthalpy ==> t - InversionError(slope) <= s.thermo.temperature)
            && (l.Enthalpy(t) >= s.thermo.enthalpy ==> s.thermo.temperature <= t + InversionError(slope))
  {
    hide FlashTP, FlashHP, Liquid.TemperatureFromEnthalpy, Liquid.Enthalpy, InversionError;
    var l := StreamLiquid(registry, s);
    var T, h := s.thermo.temperature, s.thermo.enthalpy;
    InversionErrorPositive(slope);
    if FlashHP(registry, s.thermo.package, s.composition, h, s.thermo.pressure) == Success(s.thermo) {
      FlashHPMeaning(registry, s.thermo.package, s.composition, h, s.thermo.pressure);
      InversionOrder(l, h, slope, t);
    } else {
      FlashTPMeaning(registry, s.thermo.package, s.composition, T, s.thermo.pressure);
      InversionRoundTrip(l, slope, T);
      ResidualRises(l, h, slope);
      RisingOrder(l.Residual(h), l.hardMinimum, l.hardMaximum, slope, t, T);
      RisingOrder(l.Residual(h), l.hardMinimum, l.hardMaximum, slope, T, t);
    }
  }

  /** An enthalpy between two that the liquid can have is invertible. */
  lemma BetweenInverts(l: Liquid, slope: real, low: real, h: real, high: real)
    requires Regular(l, slope) && low <= h <= high
    requires l.Enthalpy(l.hardMinimum) <= low && high <= l.Enthalpy(l.hardMaximum)
    ensures l.TemperatureFromEnthalpy(h).Success?
  {
    hide SearchSpec, Liquid.Enthalpy;
    InversionRejects(l, h, slope);
    InversionConverges(l, h);
  }

  /** Two flashed streams that exchange heat: positive flows, an effectiveness in range, and
      both limit flashes succeed. */
  predicate Exchanging(services: Services, hot: MaterialState, cold: MaterialState, effectiveness: real) {
    && Flashed(services.registry, hot) && Flashed(services.registry, cold)
    && hot.massFlow > 0.0 && cold.massFlow > 0.0
    && 0.0 <= effectiveness <= 1.0
    && DutyLimits(services, hot, cold).Success?
  }

  /** The duty limits in terms of the two liquids; each inlet temperature lies in the hard
      range of the other stream's liquid. */
  lemma LimitsMeaning(services: Services, hot: MaterialState, cold: MaterialState, effectiveness: real)
    requires Exchanging(services, hot, cold, effectiveness)
    ensures var lh, lc := StreamLiquid(services.registry, hot), StreamLiquid(services.registry, cold);
            var (hotLimit, coldLimit) := DutyLimits(services, hot, cold).value;
            && lh.hardMinimum <= cold.thermo.temperature <= lh.hardMaximum
            && lc.hardMinimum <= hot.thermo.temperature <= lc.hardMaximum
            && hotLimit == hot.massFlow * (hot.thermo.enthalpy - lh.Enthalpy(cold.thermo.temperature))
            && coldLimit == cold.massFlow * (lc.Enthalpy(hot.thermo.temperature) - cold.thermo.enthalpy)
  {
    hide FlashTP, FlashHP, Liquid.Enthalpy;
    FlashTPMeaning(services.registry, hot.thermo.package, hot.composition,
                   cold.thermo.temperature, hot.thermo.pressure);
    FlashTPMeaning(services.registry, cold.thermo.package, cold.composition,
                   hot.thermo.temperature, cold.thermo.pressure);
  }

  lemma SignOfProduct(f: real, d: real)
    requires f > 0.0
    ensures f * d >= 0.0 <==> d >= 0.0
  {
  }

  /** Removing at most `limit == f * (h - floor)` from a stream leaves it at or above `floor`. */
  lemma DropWithinLimit(f: real, h: real, floor: real, duty: real)
    requires f > 0.0 && 0.0 <= duty <= f * (h - floor)
    ensures floor <= h + (-duty) / f <= h
  {
    DivideMonotone(duty, f * (h - floor), f);
    DivideMonotone(0.0, duty, f);
    assert f * (h - floor) / f == h - floor;
    assert (-duty) / f == -(duty / f);
  }

  lemma RiseWithinLimit(f: real, h: real, ceiling: real, duty: real)
    requires f > 0.0 && 0.0 <= duty <= f * (ceiling - h)
    ensures h <= h + duty / f <= ceiling
  {
    DivideMonotone(duty, f * (ceiling - h), f);
    DivideMonotone(0.0, duty, f);
    assert f * (ceiling - h) / f == ceiling - h;
  }

  lemma NonNegativeProduct(x: real, y: real)
    requires x >= 0.0 && y >= 0.0
    ensures x * y >= 0.0
  {
    if x > 0.0 {
      SignOfProduct(x, y);
    }
  }

  lemma Fraction(e: real, limit: real)
    requires 0.0 <= e <= 1.0 && limit >= 0.0
    ensures 0.0 <= EffectiveDuty(e, limit) <= limit
  {
    NonNegativeProduct(e, limit);
    NonNegativeProduct(1.0 - e, limit);
  }

  /** The outlet enthalpies an exchange asks the two H-P flashes for. */
  function HotOutletEnthalpy(services: Services, hot: MaterialState, cold: MaterialState, effectiveness: real): real
    requires Exchanging(services, hot, cold, effectiveness)
  {
    HeatedEnthalpy(hot, -ExchangedDuty(services, hot, cold, effectiveness)).value
  }

  function ColdOutletEnthalpy(services: Services, hot: MaterialState, cold: MaterialState, effectiveness: real): real
    requires Exchanging(services, hot, cold, effectiveness)
  {
    HeatedEnthalpy(cold, ExchangedDuty(services, hot, cold, effectiveness)).value
  }

  /** Neither inlet enthalpy contradicts the order of the inlet temperatures. */
  predicate LimitsNonNegative(services: Services, hot: MaterialState, cold: MaterialState) {
    match DutyLimits(services, hot, cold)
    case Success((hotLimit, coldLimit)) => hotLimit >= 0.0 && coldLimit >= 0.0
    case Failure(_) => false
  }

  /** Which, in the streams' own terms, is an enthalpy comparison on either side. */
  lemma LimitSigns(services: Services, hot: MaterialState, cold: MaterialState, effectiveness: real)
    requires Exchanging(services, hot, cold, effectiveness)
    ensures LimitsNonNegative(services, hot, cold) <==>
      && StreamLiquid(services.registry, hot).Enthalpy(cold.thermo.temperature) <= hot.thermo.enthalpy
      && cold.thermo.enthalpy <= StreamLiquid(services.registry, cold).Enthalpy(hot.thermo.temperature)
  {
    hide Flashed, Liquid.Enthalpy;
    LimitsMeaning(services, hot, cold, effectiveness);
    var lh, lc := StreamLiquid(services.registry, hot), StreamLiquid(services.registry, cold);
    SignOfProduct(hot.massFlow, hot.thermo.enthalpy - lh.Enthalpy(cold.thermo.temperature));
    SignOfProduct(cold.massFlow, lc.Enthalpy(hot.thermo.temperature) - cold.thermo.enthalpy);
  }

  /** Neither outlet enthalpy passes the other stream's inlet temperature, exactly when
      both limits are non-negative. */
  lemma EnthalpyStaysBetween(services: Services, hot: MaterialState, cold: MaterialState, effectiveness: real)
    requires Exchanging(services, hot, cold, effectiveness)
    ensures LimitsNonNegative(services, hot, cold) <==>
      && StreamLiquid(services.registry, hot).Enthalpy(cold.thermo.temperature)
         <= HotOutletEnthalpy(services, hot, cold, effectiveness) <= hot.thermo.enthalpy
      && cold.thermo.enthalpy <= ColdOutletEnthalpy(services, hot, cold, effectiveness)
         <= StreamLiquid(services.registry, cold).Enthalpy(hot.thermo.temperature)
  {
    LimitSigns(services, hot, cold, effectiveness);
    if LimitsNonNegative(services, hot, cold) {
      WithinLimits(services, hot, cold, effectiveness);
    }
  }

  /** The duty of the exchange. */
  function ExchangedDuty(services: Services, hot: MaterialState, cold: MaterialState, effectiveness: real): real
    requires Exchanging(services, hot, cold, effectiveness)
  {
    ExchangerDuty(services, hot, cold, effectiveness).value
  }

  lemma DutyWithinLimits(services: Services, hot: MaterialState, cold: MaterialState, effectiveness: real)
    requires Exchanging(services, hot, cold, effectiveness) && LimitsNonNegative(services, hot, cold)
    ensures var (hotLimit, coldLimit) := DutyLimits(services, hot, cold).value;
            var duty := ExchangedDuty(services, hot, cold, effectiveness);
            0.0 <= duty <= hotLimit && duty <= coldLimit
  {
    hide Flashed, DutyLimits, EffectiveDuty;
    var (hotLimit, coldLimit) := DutyLimits(services, hot, cold).value;
    Fraction(effectiveness, Min(hotLimit, coldLimit));
  }

  lemma WithinLimits(services: Services, hot: MaterialState, cold: MaterialState, effectiveness: real)
    requires Exchanging(services, hot, cold, effectiveness) && LimitsNonNegative(services, hot, cold)
    ensures StreamLiquid(services.registry, hot).Enthalpy(cold.thermo.temperature)
         <= HotOutletEnthalpy(services, hot, cold, effectiveness) <= hot.thermo.enthalpy
    ensures cold.thermo.enthalpy <= ColdOutletEnthalpy(services, hot, cold, effectiveness)
         <= StreamLiquid(services.registry, cold).Enthalpy(hot.thermo.temperature)
  {
    hide Flashed, Liquid.Enthalpy, DutyLimits, ExchangerDuty, LimitsNonNegative, ExchangedDuty;
    LimitsMeaning(services, hot, cold, effectiveness);
    DutyWithinLimits(services, hot, cold, effectiveness);
    var duty := ExchangedDuty(services, hot, cold, effectiveness);
    DropWithinLimit(hot.massFlow, hot.thermo.enthalpy,
                    StreamLiquid(services.registry, hot).Enthalpy(cold.thermo.temperature), duty);
    RiseWithinLimit(cold.massFlow, cold.thermo.enthalpy,
                    StreamLiquid(services.registry, cold).Enthalpy(hot.thermo.temperature), duty);
  }

  /** The second law of the exchanger: with both limits non-negative, both outlet
      inversions succeed and both outlet temperatures lie between the inlet temperatures,
      up to the inversion error of the stream's own liquid. */
  lemma NoTemperatureCrossing(services: Services, hot: MaterialState, cold: MaterialState, effectiveness: real,
                              hotSlope: real, coldSlope: real)
    requires Exchanging(services, hot, cold, effectiveness) && LimitsNonNegative(services, hot, cold)
    requires Regular(StreamLiquid(services.registry, hot), hotSlope)
    requires Regular(StreamLiquid(services.registry, cold), coldSlope)
    ensures var hotOut := StreamLiquid(services.registry, hot)
                            .TemperatureFromEnthalpy(HotOutletEnthalpy(services, hot, cold, effectiveness));
            && hotOut.Success?
            && cold.thermo.temperature - InversionError(hotSlope) <= hotOut.value
            && hotOut.value <= hot.thermo.temperature + 3.0 * InversionError(hotSlope)
    ensures var coldOut := StreamLiquid(services.registry, cold)
                             .TemperatureFromEnthalpy(ColdOutletEnthalpy(services, hot, cold, effectiveness));
            && coldOut.Success?
            && cold.thermo.temperature - 3.0 * InversionError(coldSlope) <= coldOut.value
            && coldOut.value <= hot.thermo.temperature + InversionError(coldSlope)
  {
    hide Flashed, Liquid.Enthalpy, DutyLimits, LimitsNonNegative, HotOutletEnthalpy, ColdOutletEnthalpy,
         Liquid.TemperatureFromEnthalpy, InversionError, StreamLiquid;
    LimitsMeaning(services, hot, cold, effectiveness);
    WithinLimits(services, hot, cold, effectiveness);
    CoolsBetween(StreamLiquid(services.registry, hot), services.registry, hot, hotSlope,
                 HotOutletEnthalpy(services, hot, cold, effectiveness), cold.thermo.temperature);
    WarmsBetween(StreamLiquid(services.registry, cold), services.registry, cold, coldSlope,
                 ColdOutletEnthalpy(services, hot, cold, effectiveness), hot.thermo.temperature);
  }

  /** A flashed stream's temperature is the inversion of its enthalpy up to the error. */
  lemma FlashedInversion(registry: Registry, s: MaterialState, slope: real)
    requires Flashed(registry, s) && Regular(StreamLiquid(registry, s), slope)
    ensures var r := StreamLiquid(registry, s).TemperatureFromEnthalpy(s.thermo.enthalpy);
            r.Success? && Abs(r.value - s.thermo.temperature) <= InversionError(slope)
  {
    hide FlashTP, FlashHP, Liquid.TemperatureFromEnthalpy, Liquid.Enthalpy, InversionError;
    InversionErrorPositive(slope);
    if FlashHP(registry, s.thermo.package, s.composition, s.thermo.enthalpy, s.thermo.pressure)
       == Success(s.thermo) {
      FlashHPMeaning(registry, s.thermo.package, s.composition, s.thermo.enthalpy, s.thermo.pressure);
    } else {
      FlashTPMeaning(registry, s.thermo.package, s.composition, s.thermo.temperature, s.thermo.pressure);
      InversionRoundTrip(StreamLiquid(registry, s), slope, s.thermo.temperature);
    }
  }

  /** A stream taken down to an enthalpy still above that of `t` ends between `t` and its
      own temperature. */
  lemma CoolsBetween(l: Liquid, registry: Registry, s: MaterialState, slope: real, h: real, t: real)
    requires Flashed(registry, s) && l == StreamLiquid(registry, s) && Regular(l, slope)
    requires l.hardMinimum <= t <= l.hardMaximum && l.Enthalpy(t) <= h <= s.thermo.enthalpy
    ensures l.TemperatureFromEnthalpy(h).Success?
    ensures t - InversionError(slope) <= l.TemperatureFromEnthalpy(h).value
         <= s.thermo.temperature + 3.0 * InversionError(slope)
  {
    hide FlashTP, FlashHP, Liquid.TemperatureFromEnthalpy, Liquid.Enthalpy, InversionError;
    FlashedInversion(registry, s, slope);
    InversionRejects(l, s.thermo.enthalpy, slope);
    InversionOfEndpoint(l, slope, t);
    BetweenInverts(l, slope, l.Enthalpy(t), h, s.thermo.enthalpy);
    InversionOrder(l, h, slope, t);
    InversionMonotone(l, slope, h, s.thermo.enthalpy);
  }

  lemma WarmsBetween(l: Liquid, registry: Registry, s: MaterialState, slope: real, h: real, t: real)
    requires Flashed(registry, s) && l == StreamLiquid(registry, s) && Regular(l, slope)
    requires l.hardMinimum <= t <= l.hardMaximum && s.thermo.enthalpy <= h <= l.Enthalpy(t)
    ensures l.TemperatureFromEnthalpy(h).Success?
    ensures s.thermo.temperature - 3.0 * InversionError(slope) <= l.TemperatureFromEnthalpy(h).value
         <= t + InversionError(slope)
  {
    hide FlashTP, FlashHP, Liquid.TemperatureFromEnthalpy, Liquid.Enthalpy, InversionError;
    FlashedInversion(registry, s, slope);
    InversionRejects(l, s.thermo.enthalpy, slope);
    InversionOfEndpoint(l, slope, t);
    BetweenInverts(l, slope, s.thermo.enthalpy, h, l.Enthalpy(t));
    InversionOrder(l, h, slope, t);
    InversionMonotone(l, slope, s.thermo.enthalpy, h);
  }

  /** Every hard-range temperature has an enthalpy between those of the two ends. */
  lemma InversionOfEndpoint(l: Liquid, slope: real, t: real)
    requires l.HeatCapacityAtLeast(slope) && l.hardMinimum <= t <= l.hardMaximum
    ensures l.Enthalpy(l.hardMinimum) <= l.Enthalpy(t) <= l.Enthalpy(l.hardMaximum)
  {
    ResidualRises(l, 0.0, slope);
    RisingOrder(l.Residual(0.0), l.hardMinimum, l.hardMaximum, slope, l.hardMinimum, t);
    RisingOrder(l.Residual(0.0), l.hardMinimum, l.hardMaximum, slope, t, l.hardMaximum);
  }

  /** Both limits are non-negative as soon as the inlets are further apart than the
      inversion errors of their two liquids. */
  lemma GapMakesLimitsPositive(services: Services, hot: MaterialState, cold: MaterialState, effectiveness: real,
                               hotSlope: real, coldSlope: real)
    requires Exchanging(services, hot, cold, effectiveness)
    requires Regular(StreamLiquid(services.registry, hot), hotSlope)
    requires Regular(StreamLiquid(services.registry, cold), coldSlope)
    requires hot.thermo.temperature - cold.thermo.temperature > Max(InversionError(hotSlope), InversionError(coldSlope))
    ensures LimitsNonNegative(services, hot, cold)
  {
    hide Flashed, Liquid.Enthalpy, DutyLimits, LimitsNonNegative, StreamLiquid, InversionError;
    LimitsMeaning(services, hot, cold, effectiveness);
    LimitSigns(services, hot, cold, effectiveness);
    FlashedOrder(services.registry, hot, hotSlope, cold.thermo.temperature);
    FlashedOrder(services.registry, cold, coldSlope, hot.thermo.temperature);
  }

  /** An H-P flash of a flashed stream's own fluid fails only in the inversion. */
  lemma FlashHPSucceeds(registry: Registry, s: MaterialState, slope: real, h: real)
    requires Flashed(registry, s) && Regular(StreamLiquid(registry, s), slope)
    requires StreamLiquid(registry, s).TemperatureFromEnthalpy(h).Success?
    ensures FlashHP(registry, s.thermo.package, s.composition, h, s.thermo.pressure).Success?
  {
    hide Liquid.TemperatureFromEnthalpy, Liquid.Enthalpy, Liquid.HeatCapacity;
    var l := StreamLiquid(registry, s);
    InversionOrder(l, h, slope, l.hardMinimum);
    assert l.HeatCapacity(l.TemperatureFromEnthalpy(h).value) >= slope;
  }

  /** The exchanger, evaluated: with both limits non-negative it never fails, and both
      outlets leave between the inlet temperatures up to the inversion errors. */
  lemma ExchangerOutletsBetween(u: Unit, services: Services, inputs: seq<PortValue>,
                                hotSlope: real, coldSlope: real)
    requires Fills(inputs, [MaterialIn(HotIn), MaterialIn(ColdIn)]) && Effectiveness in u.parameters
    requires Exchanging(services, inputs[0].state, inputs[1].state, u.parameters[Effectiveness])
    requires inputs[0].state.thermo.temperature > inputs[1].state.thermo.temperature
    requires LimitsNonNegative(services, inputs[0].state, inputs[1].state)
    requires Regular(StreamLiquid(services.registry, inputs[0].state), hotSlope)
    requires Regular(StreamLiquid(services.registry, inputs[1].state), coldSlope)
    ensures EvaluateExchanger(u, services, inputs).Success?
    ensures var out := EvaluateExchanger(u, services, inputs).value.outputs;
            var hotT, coldT := inputs[0].state.thermo.temperature, inputs[1].state.thermo.temperature;
            && |out| == 2 && out[0].MaterialValue? && out[1].MaterialValue?
            && coldT - InversionError(hotSlope)
               <= out[0].state.thermo.temperature <= hotT + 3.0 * InversionError(hotSlope)
            && coldT - 3.0 * InversionError(coldSlope)
               <= out[1].state.thermo.temperature <= hotT + InversionError(coldSlope)
  {
    hide Flashed, StreamLiquid, DutyLimits, LimitsNonNegative, HeatedEnthalpy, FlashHP, InversionError,
         Liquid.TemperatureFromEnthalpy, ExchangerDuty, MaterialInput;
    var hot, cold := inputs[0].state, inputs[1].state;
    var effectiveness := u.parameters[Effectiveness];
    InputOfTwo(inputs, HotIn, ColdIn);
    NoTemperatureCrossing(services, hot, cold, effectiveness, hotSlope, coldSlope);
    OutletStates(services, hot, cold, effectiveness, hotSlope, coldSlope);
  }

  lemma OutletStates(services: Services, hot: MaterialState, cold: MaterialState, effectiveness: real,
                     hotSlope: real, coldSlope: real)
    requires Exchanging(services, hot, cold, effectiveness)
    requires Regular(StreamLiquid(services.registry, hot), hotSlope)
    requires Regular(StreamLiquid(services.registry, cold), coldSlope)
    requires StreamLiquid(services.registry, hot)
               .TemperatureFromEnthalpy(HotOutletEnthalpy(services, hot, cold, effectiveness)).Success?
    requires StreamLiquid(services.registry, cold)
               .TemperatureFromEnthalpy(ColdOutletEnthalpy(services, hot, cold, effectiveness)).Success?
    ensures var duty := ExchangerDuty(services, hot, cold, effectiveness).value;
            && ExchangerDuty(services, hot, cold, effectiveness).Success?
            && HeatedEnthalpy(hot, -duty) == Success(HotOutletEnthalpy(services, hot, cold, effectiveness))
            && HeatedEnthalpy(cold, duty) == Success(ColdOutletEnthalpy(services, hot, cold, effectiveness))
    ensures var r := FlashHP(services.registry, hot.thermo.package, hot.composition,
                             HotOutletEnthalpy(services, hot, cold, effectiveness), hot.thermo.pressure);
            r.Success? && StreamLiquid(services.registry, hot).TemperatureFromEnthalpy(
              HotOutletEnthalpy(services, hot, cold, effectiveness)) == Success(r.value.temperature)
    ensures var r := FlashHP(services.registry, cold.thermo.package, cold.composition,
                             ColdOutletEnthalpy(services, hot, cold, effectiveness), cold.thermo.pressure);
            r.Success? && StreamLiquid(services.registry, cold).TemperatureFromEnthalpy(
              ColdOutletEnthalpy(services, hot, cold, effectiveness)) == Success(r.value.temperature)
  {
    hide Flashed, DutyLimits, FlashHP, Liquid.TemperatureFromEnthalpy;
    var hotH := HotOutletEnthalpy(services, hot, cold, effectiveness);
    var coldH := ColdOutletEnthalpy(services, hot, cold, effectiveness);
    FlashHPSucceeds(services.registry, hot, hotSlope, hotH);
    FlashHPSucceeds(services.registry, cold, coldSlope, coldH);
    FlashHPMeaning(services.registry, hot.thermo.package, hot.composition, hotH, hot.thermo.pressure);
    FlashHPMeaning(services.registry, cold.thermo.package, cold.composition, coldH, cold.thermo.pressure);
  }

  /** The enthalpies of a liquid between the two ends of its hard range. */
  predicate Spans(l: Liquid, h: real) {
    l.Enthalpy(l.hardMinimum) <= h <= l.Enthalpy(l.hardMaximum)
  }

  lemma InvertsIffSpans(l: Liquid, slope: real, h: real)
    requires Regular(l, slope)
    ensures l.TemperatureFromEnthalpy(h).Success? <==> Spans(l, h)
  {
    hide SearchSpec, Liquid.Enthalpy;
    InversionRejects(l, h, slope);
    InversionConverges(l, h);
  }

  /** An H-P flash of a flashed stream's own fluid succeeds exactly on those enthalpies. */
  lemma FlashHPIffSpans(registry: Registry, s: MaterialState, slope: real, h: real)
    requires Flashed(registry, s) && Regular(StreamLiquid(registry, s), slope)
    ensures FlashHP(registry, s.thermo.package, s.composition, h, s.thermo.pressure).Success?
       <==> Spans(StreamLiquid(registry, s), h)
  {
    hide Spans, Flashed, FlashHP, Regular;
    InvertsIffSpans(StreamLiquid(registry, s), slope, h);
    if StreamLiquid(registry, s).TemperatureFromEnthalpy(h).Success? { FlashHPSucceeds(registry, s, slope, h); }
    if FlashHP(registry, s.thermo.package, s.composition, h, s.thermo.pressure).Success? {
      FlashHPMeaning(registry, s.thermo.package, s.composition, h, s.thermo.pressure);
    }
  }

  /** A T-P flash of a flashed stream's own fluid succeeds exactly on the hard range. */
  lemma FlashTPIffInRange(registry: Registry, s: MaterialState, slope: real, t: real)
    requires Flashed(registry, s) && Regular(StreamLiquid(registry, s), slope)
    ensures FlashTP(registry, s.thermo.package, s.composition, t, s.thermo.pressure).Success?
       <==> StreamLiquid(registry, s).hardMinimum <= t <= StreamLiquid(registry, s).hardMaximum
  {
    hide Liquid.TemperatureFromEnthalpy, Liquid.Enthalpy, Liquid.HeatCapacity;
    var l := StreamLiquid(registry, s);
    assert l.hardMinimum <= t <= l.hardMaximum ==> l.HeatCapacity(t) >= slope;
  }

  /** Two flashed streams with flow, on the ports of the exchanger. */
  ghost predicate ExchangerFeeds(u: Unit, services: Services, inputs: seq<PortValue>, hotSlope: real, coldSlope: real) {
    && Fills(inputs, [MaterialIn(HotIn), MaterialIn(ColdIn)]) && Effectiveness in u.parameters
    && Flashed(services.registry, inputs[0].state) && Flashed(services.registry, inputs[1].state)
    && inputs[0].state.massFlow > 0.0 && inputs[1].state.massFlow > 0.0
    && Regular(StreamLiquid(services.registry, inputs[0].state), hotSlope)
    && Regular(StreamLiquid(services.registry, inputs[1].state), coldSlope)
  }

  /** Both limits are defined exactly when each inlet temperature is one the other liquid can
      take. */
  lemma ExchangingIff(u: Unit, services: Services, inputs: seq<PortValue>, hotSlope: real, coldSlope: real)
    requires ExchangerFeeds(u, services, inputs, hotSlope, coldSlope)
    ensures var hot, cold := inputs[0].state, inputs[1].state;
            var lh, lc := StreamLiquid(services.registry, hot), StreamLiquid(services.registry, cold);
            Exchanging(services, hot, cold, u.parameters[Effectiveness]) <==>
              && 0.0 <= u.parameters[Effectiveness] <= 1.0
              && lh.hardMinimum <= cold.thermo.temperature <= lh.hardMaximum
              && lc.hardMinimum <= hot.thermo.temperature <= lc.hardMaximum
  {
    hide Flashed, FlashTP, StreamLiquid;
    var hot, cold := inputs[0].state, inputs[1].state;
    FlashTPIffInRange(services.registry, hot, hotSlope, cold.thermo.temperature);
    FlashTPIffInRange(services.registry, cold, coldSlope, hot.thermo.temperature);
  }

  /** The exchanger succeeds exactly when the hot inlet is hotter, the limits are defined and
      each outlet enthalpy is one its liquid can have within its hard range. */
  lemma ExchangerSucceedsIff(u: Unit, services: Services, inputs: seq<PortValue>, hotSlope: real, coldSlope: real)
    requires ExchangerFeeds(u, services, inputs, hotSlope, coldSlope)
    ensures var hot, cold, e := inputs[0].state, inputs[1].state, u.parameters[Effectiveness];
            EvaluateExchanger(u, services, inputs).Success? <==>
              && cold.thermo.temperature < hot.thermo.temperature
              && Exchanging(services, hot, cold, e)
              && Spans(StreamLiquid(services.registry, hot), HotOutletEnthalpy(services, hot, cold, e))
              && Spans(StreamLiquid(services.registry, cold), ColdOutletEnthalpy(services, hot, cold, e))
  {
    hide Flashed, StreamLiquid, DutyLimits, FlashHP, MaterialInput, Spans, Regular, EffectiveDuty, Flux, Divide;
    var hot, cold, e := inputs[0].state, inputs[1].state, u.parameters[Effectiveness];
    InputOfTwo(inputs, HotIn, ColdIn);
    if Exchanging(services, hot, cold, e) {
      OutletEnthalpies(services, hot, cold, e);
      FlashHPIffSpans(services.registry, hot, hotSlope, HotOutletEnthalpy(services, hot, cold, e));
      FlashHPIffSpans(services.registry, cold, coldSlope, ColdOutletEnthalpy(services, hot, cold, e));
    }
    hide HeatedEnthalpy, HotOutletEnthalpy, ColdOutletEnthalpy;
  }

  lemma OutletEnthalpies(services: Services, hot: MaterialState, cold: MaterialState, effectiveness: real)
    requires Exchanging(services, hot, cold, effectiveness)
    ensures var duty := ExchangerDuty(services, hot, cold, effectiveness);
            && duty.Success?
            && HeatedEnthalpy(hot, -duty.value) == Success(HotOutletEnthalpy(services, hot, cold, effectiveness))
            && HeatedEnthalpy(cold, duty.value) == Success(ColdOutletEnthalpy(services, hot, cold, effectiveness))
  {
    hide Flashed, DutyLimits, EffectiveDuty;
  }

  /** A fluid with unit heat capacity on one kelvin, and two streams of it whose
      temperatures differ by less than the inversion error. */
  const CLOSE_LIQUID := Liquid(1.0, 1.0, 0.0, 0.0, 1.0, 1.0, 2.0, 1.0, 2.0)
  const CLOSE_FLUID := [Component(0, 1.0)]
  const CLOSE_SERVICES := Services(map[0 := Package(0, map[0 := CLOSE_LIQUID])], map[0 := 0])
  const CLOSE_HOT := MaterialState(0, CLOSE_FLUID, 1.0,
                                   ThermoState(0, CLOSE_FLUID, 1.500000001, 1.0, 0.500000001, Valid))
  const CLOSE_COLD := MaterialState(0, CLOSE_FLUID, 1000000000.0,
                                    ThermoState(0, CLOSE_FLUID, 1.5, 1.0, 0.500000005, Valid))

  const CLOSE_UNIT := Unit(0, HeatExchanger, map[Effectiveness := 1.0], map[])
  const CLOSE_INPUTS := [MaterialValue(HotIn, CLOSE_HOT), MaterialValue(ColdIn, CLOSE_COLD)]

  lemma CloseLiquid(t: real)
    ensures CLOSE_LIQUID.Enthalpy(t) == t - 1.0 && CLOSE_LIQUID.HeatCapacity(t) == 1.0
  {
  }

  lemma CloseInversion()
    ensures CLOSE_LIQUID.TemperatureFromEnthalpy(0.500000005) == Success(1.5)
  {
    hide Liquid.Enthalpy;
    CloseLiquid(1.0);
    CloseLiquid(1.5);
    CloseLiquid(2.0);
  }

  lemma CloseRegular()
    ensures Regular(CLOSE_LIQUID, 1.0)
  {
    hide Liquid.HeatCapacity;
    forall t ensures CLOSE_LIQUID.HeatCapacity(t) == 1.0 { CloseLiquid(t); }
    PowGrows(30, HALVINGS - 1);
    assert Pow2(10) == 1024.0;
    assert Pow2(20) == 1048576.0;
    assert Pow2(30) == 1073741824.0;
  }

  lemma CloseFlashed()
    ensures Flashed(CLOSE_SERVICES.registry, CLOSE_HOT) && Flashed(CLOSE_SERVICES.registry, CLOSE_COLD)
  {
    hide Liquid.HeatCapacity, Liquid.Enthalpy, Liquid.TemperatureFromEnthalpy;
    CloseLiquid(1.500000001);
    CloseLiquid(1.5);
    CloseInversion();
  }

  lemma CloseLimits()
    ensures DutyLimits(CLOSE_SERVICES, CLOSE_HOT, CLOSE_COLD) == Success((0.000000001, -4.0))
  {
    hide Liquid.HeatCapacity, Liquid.Enthalpy, Liquid.TemperatureFromEnthalpy;
    CloseLiquid(1.500000001);
    CloseLiquid(1.5);
  }

  /** Without that, close inlets can fail: a cold inlet whose temperature was inverted
      within the residual tolerance has more enthalpy than the hotter stream's temperature
      allows, the duty turns negative, and the hot outlet leaves the hard range. */
  lemma CloseInletsCanFail()
    ensures Exchanging(CLOSE_SERVICES, CLOSE_HOT, CLOSE_COLD, 1.0)
    ensures CLOSE_HOT.thermo.temperature > CLOSE_COLD.thermo.temperature
    ensures StreamLiquid(CLOSE_SERVICES.registry, CLOSE_HOT) == CLOSE_LIQUID && Regular(CLOSE_LIQUID, 1.0)
    ensures !LimitsNonNegative(CLOSE_SERVICES, CLOSE_HOT, CLOSE_COLD)
    ensures CLOSE_LIQUID.TemperatureFromEnthalpy(HotOutletEnthalpy(CLOSE_SERVICES, CLOSE_HOT, CLOSE_COLD, 1.0))
         == Failure(OutsideHardDomain)
  {
    hide Flashed, DutyLimits, Liquid.Enthalpy, Liquid.HeatCapacity, Liquid.TemperatureFromEnthalpy, Regular;
    CloseFlashed();
    CloseLimits();
    CloseRegular();
    CloseLiquid(2.0);
    assert CLOSE_LIQUID.HeatCapacityAtLeast(1.0) by { CloseRising(); }
    InversionRejects(CLOSE_LIQUID, 4.500000001, 1.0);
  }

  /** So the exchanger of these inlets fails. */
  lemma CloseExchangerFails()
    ensures ExchangerFeeds(CLOSE_UNIT, CLOSE_SERVICES, CLOSE_INPUTS, 1.0, 1.0)
    ensures !EvaluateExchanger(CLOSE_UNIT, CLOSE_SERVICES, CLOSE_INPUTS).Success?
  {
    hide Flashed, DutyLimits, Regular, Spans, HotOutletEnthalpy, ColdOutletEnthalpy, EvaluateExchanger,
         Liquid.Enthalpy, Liquid.HeatCapacity, Liquid.TemperatureFromEnthalpy;
    CloseFlashed();
    CloseRegular();
    CloseInletsCanFail();
    InvertsIffSpans(CLOSE_LIQUID, 1.0, HotOutletEnthalpy(CLOSE_SERVICES, CLOSE_HOT, CLOSE_COLD, 1.0));
    ExchangerSucceedsIff(CLOSE_UNIT, CLOSE_SERVICES, CLOSE_INPUTS, 1.0, 1.0);
  }

  lemma CloseRising()
    ensures CLOSE_LIQUID.HeatCapacityAtLeast(1.0)
  {
    CloseRegular();
  }

  lemma {:induction false} PowGrows(a: nat, b: nat)
    requires a <= b
    ensures Pow2(a) <= Pow2(b)
    decreases b
  {
    if a < b { PowGrows(a, b - 1); }
  }

  predicate AllFlashed(registry: Registry, values: seq<PortValue>) {
    forall i :: 0 <= i < |values| && values[i].MaterialValue? ==> Flashed(registry, values[i].state)
  }

  lemma {:induction false} FlashedInput(registry: Registry, inputs: seq<PortValue>, port: PortId)
    requires AllFlashed(registry, inputs) && MaterialInput(inputs, port).Success?
    ensures Flashed(registry, MaterialInput(inputs, port).value)
  {
    hide Flashed;
    if !(inputs[0].MaterialValue? && inputs[0].port == port) {
      assert AllFlashed(registry, inputs[1..]) by {
        assert forall i :: 0 <= i < |inputs[1..]| ==> inputs[1..][i] == inputs[i + 1];
      }
      FlashedInput(registry, inputs[1..], port);
    }
  }

  lemma FlashedByHP(registry: Registry, s: MaterialState, package: Id, h: real, p: real)
    requires FlashHP(registry, package, s.composition, h, p) == Success(s.thermo)
    ensures Flashed(registry, s)
  {
    hide FlashHP;
    FlashHPMeaning(registry, package, s.composition, h, p);
  }

  /** Every stream a unit puts out was flashed, when every stream it took in was. */
  lemma EvaluationKeepsFlashed(u: Unit, services: Services, inputs: seq<PortValue>)
    requires Evaluate(u, services, inputs).Success? && AllFlashed(services.registry, inputs)
    ensures AllFlashed(services.registry, Evaluate(u, services, inputs).value.outputs)
  {
    hide FlashTP, FlashHP, Flashed, MaterialInput, HeatedEnthalpy, MixedEnthalpy, ExchangerDuty, TargetDuty,
         Divide, Flux;
    var registry := services.registry;
    var out := Evaluate(u, services, inputs).value.outputs;
    match u.model
    case Source =>
      var s := out[0].state;
      FlashTPMeaning(registry, services.materials[u.metadata[MATERIAL_ID]], s.composition,
                     u.parameters[Temperature], u.parameters[Pressure]);
      assert Flashed(registry, s) by { FlashedByTP(registry, s); }
    case Sink =>
    case Heater =>
      FlashedByHP(registry, out[0].state, MaterialInput(inputs, Inlet).value.thermo.package,
                  HeatedEnthalpy(MaterialInput(inputs, Inlet).value, u.parameters[HeatDuty]).value,
                  MaterialInput(inputs, Inlet).value.thermo.pressure);
    case Mixer =>
      var a, b := MaterialInput(inputs, InletA).value, MaterialInput(inputs, InletB).value;
      FlashedByHP(registry, out[0].state, a.thermo.package, MixedEnthalpy(a, b).value,
                  Min(a.thermo.pressure, b.thermo.pressure));
    case Splitter =>
      FlashedInput(registry, inputs, Inlet);
      FlowIsNotThermal(registry, MaterialInput(inputs, Inlet).value, out[0].state.massFlow);
      FlowIsNotThermal(registry, MaterialInput(inputs, Inlet).value, out[1].state.massFlow);
    case HeatExchanger =>
      var hot, cold := MaterialInput(inputs, HotIn).value, MaterialInput(inputs, ColdIn).value;
      var duty := ExchangerDuty(services, hot, cold, u.parameters[Effectiveness]).value;
      FlashedByHP(registry, out[0].state, hot.thermo.package, HeatedEnthalpy(hot, -duty).value, hot.thermo.pressure);
      FlashedByHP(registry, out[1].state, cold.thermo.package, HeatedEnthalpy(cold, duty).value, cold.thermo.pressure);
    case Radiator =>
      var inlet := MaterialInput(inputs, Inlet).value;
      var duty := TargetDuty(services, inlet, u.parameters[OutletTemperature]).value;
      FlashedByHP(registry, out[0].state, inlet.thermo.package, HeatedEnthalpy(inlet, duty).value,
                  inlet.thermo.pressure);
  }

  lemma FlashedByTP(registry: Registry, s: MaterialState)
    requires FlashTP(registry, s.thermo.package, s.composition, s.thermo.temperature, s.thermo.pressure)
          == Success(s.thermo) && s.composition == s.thermo.composition
    ensures Flashed(registry, s)
  {
  }

  lemma FlowIsNotThermal(registry: Registry, s: MaterialState, flow: real)
    requires Flashed(registry, s)
    ensures Flashed(registry, s.(massFlow := flow))
  {
  }
}
