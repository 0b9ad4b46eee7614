/** What each unit operation does with its parameters. */
module UnitEffects {
  import opened Wrappers
  import opened Numerics
  import opened Properties
  import opened Flash
  import opened Models
  import opened Catalogue
  import opened Balances
  import opened SecondLaw

  /** Heat that takes a stream from one state to another of the same flow. */
  function HeatInto(s: MaterialState, after: ThermoState): real {
    s.massFlow * (after.enthalpy - s.thermo.enthalpy)
  }

  lemma HeatIsDuty(s: MaterialState, duty: real, after: ThermoState)
    requires HeatedEnthalpy(s, duty) == Success(after.enthalpy)
    ensures HeatInto(s, after) == duty
  {
    QuotientTimes(duty, s.massFlow);
    assert after.enthalpy - s.thermo.enthalpy == duty / s.massFlow;
  }

  /** A source puts out its mass flow of its pure material at its temperature and pressure. */
  lemma SourceDoes(u: Unit, services: Services)
    requires EvaluateSource(u, services).Success?
    ensures {MassFlow, Temperature, Pressure} <= u.parameters.Keys && MATERIAL_ID in u.metadata
    ensures var e := EvaluateSource(u, services).value;
      |e.outputs| == 1 && e.outputs[0].MaterialValue? &&
      var s := e.outputs[0].state;
      && s.massFlow == u.parameters[MassFlow] && s.composition == [Component(s.material, 1.0)]
      && s.material == u.metadata[MATERIAL_ID]
      && s.thermo.temperature == u.parameters[Temperature] && s.thermo.pressure == u.parameters[Pressure]
      && Flashed(services.registry, s)
      && s.thermo.enthalpy == StreamLiquid(services.registry, s).Enthalpy(s.thermo.temperature)
      && e.validity == s.thermo.validity
  {
    hide FlashTP, Liquid.Enthalpy;
    var material := u.metadata[MATERIAL_ID];
    FlashTPMeaning(services.registry, services.materials[material], [Component(material, 1.0)],
                   u.parameters[Temperature], u.parameters[Pressure]);
  }

  /** A sink succeeds on any inlet, puts nothing out, and is as valid as what it takes. */
  lemma SinkDoes(u: Unit, inputs: seq<PortValue>)
    requires Fills(inputs, [MaterialIn(Inlet)])
    ensures EvaluateSink(u, inputs) == Success(Evaluation(u.id, [], inputs[0].state.thermo.validity))
  {
    hide MaterialInput;
    InputOfOne(inputs, Inlet);
  }

  /** A heater puts its duty into the stream and reports it; a negative duty takes heat out. */
  lemma HeaterDoes(u: Unit, services: Services, inputs: seq<PortValue>)
    requires EvaluateHeater(u, services, inputs).Success? && Fills(inputs, [MaterialIn(Inlet)])
    ensures HeatDuty in u.parameters && inputs[0].state.massFlow > 0.0
    ensures var e := EvaluateHeater(u, services, inputs).value;
      && |e.outputs| == 2 && e.outputs[0].MaterialValue? && e.outputs[1] == EnergyValue(Duty, u.parameters[HeatDuty])
      && HeatInto(inputs[0].state, e.outputs[0].state.thermo) == u.parameters[HeatDuty]
      && e.outputs[0].state.massFlow == inputs[0].state.massFlow
      && e.validity == Worse(inputs[0].state.thermo.validity, e.outputs[0].state.thermo.validity)
  {
    hide FlashHP, MaterialInput, HeatedEnthalpy, Worse;
    InputOfOne(inputs, Inlet);
    HeatedByDoes(u, services, inputs, u.parameters[HeatDuty]);
  }

  lemma HeatedByDoes(u: Unit, services: Services, inputs: seq<PortValue>, duty: real)
    requires HeatedBy(u, services, inputs, duty).Success? && Fills(inputs, [MaterialIn(Inlet)])
    ensures inputs[0].state.massFlow > 0.0
    ensures var e := HeatedBy(u, services, inputs, duty).value;
      && |e.outputs| == 2 && e.outputs[0].MaterialValue? && e.outputs[1] == EnergyValue(Duty, duty)
      && HeatInto(inputs[0].state, e.outputs[0].state.thermo) == duty
      && e.outputs[0].state.massFlow == inputs[0].state.massFlow
      && e.validity == Worse(inputs[0].state.thermo.validity, e.outputs[0].state.thermo.validity)
  {
    hide FlashHP, MaterialInput, HeatedEnthalpy, Worse;
    InputOfOne(inputs, Inlet);
    var s := inputs[0].state;
    var h := HeatedEnthalpy(s, duty).value;
    FlashHPMeaning(services.registry, s.thermo.package, s.composition, h, s.thermo.pressure);
    HeatIsDuty(s, duty, HeatedBy(u, services, inputs, duty).value.outputs[0].state.thermo);
  }

  /** A splitter sends its fraction of the flow to the first outlet and the rest to the second, both
      in the inlet's state. */
  lemma SplitterDoes(u: Unit, inputs: seq<PortValue>)
    requires EvaluateSplitter(u, inputs).Success? && Fills(inputs, [MaterialIn(Inlet)])
    ensures SplitFraction in u.parameters && 0.0 <= u.parameters[SplitFraction] <= 1.0
    ensures var e, inlet := EvaluateSplitter(u, inputs).value, inputs[0].state;
      && |e.outputs| == 2 && e.outputs[0].MaterialValue? && e.outputs[1].MaterialValue?
      && e.outputs[0].port == OutletA && e.outputs[1].port == OutletB
      && e.outputs[0].state.massFlow == u.parameters[SplitFraction] * inlet.massFlow
      && e.outputs[1].state.massFlow == inlet.massFlow - u.parameters[SplitFraction] * inlet.massFlow
      && e.outputs[0].state.thermo == e.outputs[1].state.thermo == inlet.thermo && e.validity == inlet.thermo.validity
  {
    hide MaterialInput;
    InputOfOne(inputs, Inlet);
  }

  /** A mixer adds the flows and mixes the enthalpies, at the lower pressure. */
  lemma MixerDoes(u: Unit, services: Services, inputs: seq<PortValue>)
    requires EvaluateMixer(u, services, inputs).Success?
    requires Fills(inputs, [MaterialIn(InletA), MaterialIn(InletB)])
    ensures var e, a, b := EvaluateMixer(u, services, inputs).value, inputs[0].state, inputs[1].state;
      |e.outputs| == 1 && e.outputs[0].MaterialValue? &&
      var out := e.outputs[0].state;
      && out.massFlow == a.massFlow + b.massFlow
      && a.material == b.material && a.composition == b.composition
      && HeatInto(a, out.thermo) + HeatInto(b, out.thermo) == 0.0
      && out.thermo.pressure <= a.thermo.pressure && out.thermo.pressure <= b.thermo.pressure
      && (out.thermo.pressure == a.thermo.pressure || out.thermo.pressure == b.thermo.pressure)
      && e.validity == Worse(Worse(a.thermo.validity, b.thermo.validity), out.thermo.validity)
  {
    hide FlashHP, MaterialInput, Worse, MixedEnthalpy, HeatInto, LiquidOf;
    InputOfTwo(inputs, InletA, InletB);
    var a, b := inputs[0].state, inputs[1].state;
    FlashHPMeaning(services.registry, a.thermo.package, a.composition, MixedEnthalpy(a, b).value,
                   Min(a.thermo.pressure, b.thermo.pressure));
    MixingIsEven(a, b, EvaluateMixer(u, services, inputs).value.outputs[0].state.thermo);
  }

  lemma MixingIsEven(a: MaterialState, b: MaterialState, after: ThermoState)
    requires MixedEnthalpy(a, b) == Success(after.enthalpy)
    ensures HeatInto(a, after) + HeatInto(b, after) == 0.0
  {
    var h := after.enthalpy;
    QuotientTimes(a.massFlow * a.thermo.enthalpy + b.massFlow * b.thermo.enthalpy, a.massFlow + b.massFlow);
    assert (a.massFlow + b.massFlow) * h == a.massFlow * h + b.massFlow * h;
  }

  /** What the hot stream would give up, and the cold one take, if it left at temperature `t`. */
  function HotLimit(l: Liquid, hot: MaterialState, t: real): real {
    hot.massFlow * (hot.thermo.enthalpy - l.Enthalpy(t))
  }

  function ColdLimit(l: Liquid, cold: MaterialState, t: real): real {
    cold.massFlow * (l.Enthalpy(t) - cold.thermo.enthalpy)
  }

  /** The lesser of the two limits of a pair of flashed streams. */
  function LesserLimit(services: Services, hot: MaterialState, cold: MaterialState): real
    requires Flashed(services.registry, hot) && Flashed(services.registry, cold)
  {
    Min(HotLimit(StreamLiquid(services.registry, hot), hot, cold.thermo.temperature),
        ColdLimit(StreamLiquid(services.registry, cold), cold, hot.thermo.temperature))
  }

  /** The heat that passes at an effectiveness. */
  function Moved(services: Services, hot: MaterialState, cold: MaterialState, effectiveness: real): real
    requires Flashed(services.registry, hot) && Flashed(services.registry, cold)
  {
    effectiveness * LesserLimit(services, hot, cold)
  }

  /** The exchanger moves its effectiveness times the lesser limit from the hot stream to the cold:
      what either stream would exchange if it left at the other's inlet temperature. */
  lemma ExchangerDoes(u: Unit, services: Services, inputs: seq<PortValue>)
    requires EvaluateExchanger(u, services, inputs).Success?
    requires Fills(inputs, [MaterialIn(HotIn), MaterialIn(ColdIn)])
    requires Flashed(services.registry, inputs[0].state) && Flashed(services.registry, inputs[1].state)
    ensures Effectiveness in u.parameters && 0.0 <= u.parameters[Effectiveness] <= 1.0
    ensures var e, hot, cold := EvaluateExchanger(u, services, inputs).value, inputs[0].state, inputs[1].state;
      && |e.outputs| == 2 && e.outputs[0].MaterialValue? && e.outputs[1].MaterialValue?
      && e.outputs[0].port == HotOut && e.outputs[1].port == ColdOut
      && var duty := Moved(services, hot, cold, u.parameters[Effectiveness]);
      && HeatInto(hot, e.outputs[0].state.thermo) == -duty
      && HeatInto(cold, e.outputs[1].state.thermo) == duty
      && e.outputs[0].state.massFlow == hot.massFlow && e.outputs[1].state.massFlow == cold.massFlow
      && WorstOf(e.validity, [hot.thermo.validity, cold.thermo.validity,
                              e.outputs[0].state.thermo.validity, e.outputs[1].state.thermo.validity])
  {
    hide *;
    ExchangerValidity(u, services, inputs);
    TwoStreams(inputs, HotIn, ColdIn);
    var hot, cold := inputs[0].state, inputs[1].state;
    var duty, hotOut, coldOut := ExchangerSteps(u, services, inputs);
    ExchangedIs(services, hot, cold, u.parameters[Effectiveness]);
    SideDoes(services.registry, hot, -duty, hotOut);
    SideDoes(services.registry, cold, duty, coldOut);
  }

  /** The validity is one of those, and none is worse: invalid comes last, then extrapolated, then
      valid. */
  predicate WorstOf(v: Validity, of: seq<Validity>) {
    && v in of
    && (v != Invalid ==> Invalid !in of)
    && (v in {Unknown, Valid} ==> Extrapolated !in of)
    && (v == Unknown ==> Valid !in of)
  }

  lemma ExchangerValidity(u: Unit, services: Services, inputs: seq<PortValue>)
    requires EvaluateExchanger(u, services, inputs).Success?
    requires Fills(inputs, [MaterialIn(HotIn), MaterialIn(ColdIn)])
    ensures var e := EvaluateExchanger(u, services, inputs).value;
      && |e.outputs| == 2 && e.outputs[0].MaterialValue? && e.outputs[1].MaterialValue?
      && WorstOf(e.validity, [inputs[0].state.thermo.validity, inputs[1].state.thermo.validity,
                              e.outputs[0].state.thermo.validity, e.outputs[1].state.thermo.validity])
  {
    hide FlashHP, ExchangerDuty, MaterialInput, HeatedEnthalpy, Worse, WorstOf;
    InputOfTwo(inputs, HotIn, ColdIn);
    var out := EvaluateExchanger(u, services, inputs).value.outputs;
    WorstOfFour(inputs[0].state.thermo.validity, inputs[1].state.thermo.validity,
                out[0].state.thermo.validity, out[1].state.thermo.validity);
  }

  lemma WorstOfFour(a: Validity, b: Validity, c: Validity, d: Validity)
    ensures WorstOf(Worse(Worse(a, b), Worse(c, d)), [a, b, c, d])
  {
  }

  lemma TwoStreams(inputs: seq<PortValue>, a: PortId, b: PortId)
    requires Fills(inputs, [MaterialIn(a), MaterialIn(b)])
    ensures |inputs| == 2 && inputs[0].MaterialValue? && inputs[1].MaterialValue?
  {
  }

  /** An H-P flash at the heated enthalpy puts the duty into the stream. */
  lemma SideDoes(registry: Registry, s: MaterialState, duty: real, after: ThermoState)
    requires HeatedEnthalpy(s, duty).Success?
    requires FlashHP(registry, s.thermo.package, s.composition, HeatedEnthalpy(s, duty).value, s.thermo.pressure)
          == Success(after)
    ensures HeatInto(s, after) == duty
  {
    hide FlashHP, HeatedEnthalpy, HeatInto, LiquidOf;
    FlashHPMeaning(registry, s.thermo.package, s.composition, HeatedEnthalpy(s, duty).value, s.thermo.pressure);
    HeatIsDuty(s, duty, after);
  }

  lemma ExchangedIs(services: Services, hot: MaterialState, cold: MaterialState, effectiveness: real)
    requires Flashed(services.registry, hot) && Flashed(services.registry, cold)
    requires ExchangerDuty(services, hot, cold, effectiveness).Success?
    ensures ExchangerDuty(services, hot, cold, effectiveness).value == Moved(services, hot, cold, effectiveness)
  {
    hide FlashTP, FlashHP, Liquid.Enthalpy;
    FlashTPMeaning(services.registry, hot.thermo.package, hot.composition,
                   cold.thermo.temperature, hot.thermo.pressure);
    FlashTPMeaning(services.registry, cold.thermo.package, cold.composition,
                   hot.thermo.temperature, cold.thermo.pressure);
  }

  /** A radiator takes the stream to the enthalpy of its target temperature in the material's own
      package, never heats it, and reports the heat it put into it, which is not positive. */
  lemma RadiatorDoes(u: Unit, services: Services, inputs: seq<PortValue>)
    requires EvaluateRadiator(u, services, inputs).Success? && Fills(inputs, [MaterialIn(Inlet)])
    ensures OutletTemperature in u.parameters && Emissivity in u.parameters && 0.0 < u.parameters[Emissivity] <= 1.0
    ensures var e, inlet := EvaluateRadiator(u, services, inputs).value, inputs[0].state;
      && |e.outputs| == 2 && e.outputs[0].MaterialValue? && e.outputs[1].EnergyValue?
      && inlet.material in services.materials
      && LiquidOf(services.registry, services.materials[inlet.material], inlet.composition).Some?
      && var l := LiquidOf(services.registry, services.materials[inlet.material], inlet.composition).value;
      && e.outputs[0].state.thermo.enthalpy == l.Enthalpy(u.parameters[OutletTemperature])
      && e.outputs[1] == EnergyValue(Duty, HeatInto(inlet, e.outputs[0].state.thermo))
      && e.outputs[1].duty <= 0.0 && e.outputs[0].state.massFlow == inlet.massFlow
  {
    hide FlashHP, FlashTP, MaterialInput, HeatedBy, Flux, Divide, HeatInto, Liquid.Enthalpy;
    InputOfOne(inputs, Inlet);
    var inlet := inputs[0].state;
    var duty := TargetDuty(services, inlet, u.parameters[OutletTemperature]).value;
    FlashTPMeaning(services.registry, services.materials[inlet.material], inlet.composition,
                   u.parameters[OutletTemperature], inlet.thermo.pressure);
    HeatedByDoes(u, services, inputs, duty);
    SameHeat(inlet, HeatedBy(u, services, inputs, duty).value.outputs[0].state.thermo,
             LiquidOf(services.registry, services.materials[inlet.material], inlet.composition).value
               .Enthalpy(u.parameters[OutletTemperature]));
  }

  lemma SameHeat(s: MaterialState, after: ThermoState, h: real)
    requires s.massFlow > 0.0 && HeatInto(s, after) == s.massFlow * (h - s.thermo.enthalpy)
    ensures after.enthalpy == h
  {
    assert s.massFlow * (after.enthalpy - h) == 0.0;
  }

  // ---- When a unit succeeds -------------------------------------------------------------------

  /** A flashed inlet of a liquid with positive heat capacity, on the one inlet port of a unit. */
  ghost predicate Fed(services: Services, inputs: seq<PortValue>, slope: real) {
    && Fills(inputs, [MaterialIn(Inlet)]) && Flashed(services.registry, inputs[0].state)
    && Regular(StreamLiquid(services.registry, inputs[0].state), slope)
  }

  /** A heater succeeds exactly on a flow, with a duty that keeps the enthalpy between those of the
      two ends of the liquid's hard range. */
  lemma HeaterSucceedsIff(u: Unit, services: Services, inputs: seq<PortValue>, slope: real)
    requires Fed(services, inputs, slope)
    ensures var s := inputs[0].state;
      EvaluateHeater(u, services, inputs).Success? <==>
        && HeatDuty in u.parameters && s.massFlow > 0.0
        && Spans(StreamLiquid(services.registry, s), s.thermo.enthalpy + u.parameters[HeatDuty] / s.massFlow)
  {
    hide Flashed, StreamLiquid, FlashHP, MaterialInput, Spans, Regular, Worse;
    InputOfOne(inputs, Inlet);
    var s := inputs[0].state;
    if HeatDuty in u.parameters && s.massFlow > 0.0 {
      FlashHPIffSpans(services.registry, s, slope, s.thermo.enthalpy + u.parameters[HeatDuty] / s.massFlow);
    }
  }

  /** A splitter succeeds exactly with a fraction between none and all. */
  lemma SplitterSucceedsIff(u: Unit, inputs: seq<PortValue>)
    requires Fills(inputs, [MaterialIn(Inlet)])
    ensures EvaluateSplitter(u, inputs).Success? <==>
      SplitFraction in u.parameters && 0.0 <= u.parameters[SplitFraction] <= 1.0
  {
    hide MaterialInput;
    InputOfOne(inputs, Inlet);
  }

  /** A mixer of two flashed streams succeeds exactly on one material, with some flow, when the mixed
      enthalpy is one the liquid can have. */
  lemma MixerSucceedsIff(u: Unit, services: Services, inputs: seq<PortValue>, slope: real)
    requires Fills(inputs, [MaterialIn(InletA), MaterialIn(InletB)])
    requires Flashed(services.registry, inputs[0].state) && Flashed(services.registry, inputs[1].state)
    requires Regular(StreamLiquid(services.registry, inputs[0].state), slope)
    ensures var a, b := inputs[0].state, inputs[1].state;
      && (MixedEnthalpy(a, b).Success? <==> a.massFlow + b.massFlow != 0.0)
      && (EvaluateMixer(u, services, inputs).Success? <==>
            && a.material == b.material && a.composition == b.composition && a.massFlow + b.massFlow != 0.0
            && Spans(StreamLiquid(services.registry, a), MixedEnthalpy(a, b).value))
  {
    hide Flashed, StreamLiquid, FlashHP, MaterialInput, Spans, Regular, Worse;
    InputOfTwo(inputs, InletA, InletB);
    var a, b := inputs[0].state, inputs[1].state;
    MixesSomeFlow(a, b);
    hide MixedEnthalpy;
    if a.massFlow + b.massFlow != 0.0 {
      var h := MixedEnthalpy(a, b).value;
      FlashHPAtAnyPressure(services.registry, a, h, Min(a.thermo.pressure, b.thermo.pressure));
      FlashHPIffSpans(services.registry, a, slope, h);
    }
  }

  lemma MixesSomeFlow(a: MaterialState, b: MaterialState)
    ensures MixedEnthalpy(a, b).Success? <==> a.massFlow + b.massFlow != 0.0
  {
  }

  /** Whether a flash succeeds does not depend on the pressure. */
  lemma FlashHPAtAnyPressure(registry: Registry, s: MaterialState, h: real, p: real)
    ensures FlashHP(registry, s.thermo.package, s.composition, h, p).Success?
       <==> FlashHP(registry, s.thermo.package, s.composition, h, s.thermo.pressure).Success?
  {
    hide Liquid.TemperatureFromEnthalpy, Liquid.HeatCapacity;
  }

  /** A heater warms with a positive duty and cools with a negative one, up to the inversion errors. */
  lemma HeaterWarms(u: Unit, services: Services, inputs: seq<PortValue>, slope: real)
    requires Fed(services, inputs, slope) && EvaluateHeater(u, services, inputs).Success?
    ensures HeatDuty in u.parameters
    ensures var e := EvaluateHeater(u, services, inputs).value;
      |e.outputs| == 2 && e.outputs[0].MaterialValue? &&
      var before, after := inputs[0].state.thermo.temperature, e.outputs[0].state.thermo.temperature;
      && (u.parameters[HeatDuty] >= 0.0 ==> before <= after + 3.0 * InversionError(slope))
      && (u.parameters[HeatDuty] <= 0.0 ==> after <= before + 3.0 * InversionError(slope))
  {
    hide Flashed, FlashHP, Liquid.TemperatureFromEnthalpy, StreamLiquid, InversionError, EvaluateHeater, HeatInto,
         Worse, MaterialInput;
    HeaterDoes(u, services, inputs);
    var s, duty := inputs[0].state, u.parameters[HeatDuty];
    var after := EvaluateHeater(u, services, inputs).value.outputs[0].state.thermo;
    HeaterInverts(u, services, inputs);
    FlashedInversion(services.registry, s, slope);
    SignOfHeat(s, after);
    var l := StreamLiquid(services.registry, s);
    if duty >= 0.0 { InversionMonotone(l, slope, s.thermo.enthalpy, after.enthalpy); }
    if duty <= 0.0 { InversionMonotone(l, slope, after.enthalpy, s.thermo.enthalpy); }
  }

  lemma SignOfHeat(s: MaterialState, after: ThermoState)
    requires s.massFlow > 0.0
    ensures HeatInto(s, after) >= 0.0 <==> after.enthalpy >= s.thermo.enthalpy
    ensures HeatInto(s, after) <= 0.0 <==> after.enthalpy <= s.thermo.enthalpy
  {
    SignOfProduct(s.massFlow, after.enthalpy - s.thermo.enthalpy);
    SignOfProduct(s.massFlow, s.thermo.enthalpy - after.enthalpy);
  }

  /** The outlet temperature of a heater is the inversion of its outlet enthalpy. */
  lemma HeaterInverts(u: Unit, services: Services, inputs: seq<PortValue>)
    requires Fills(inputs, [MaterialIn(Inlet)]) && Flashed(services.registry, inputs[0].state)
    requires EvaluateHeater(u, services, inputs).Success?
    ensures var e := EvaluateHeater(u, services, inputs).value;
      |e.outputs| == 2 && e.outputs[0].MaterialValue? &&
      StreamLiquid(services.registry, inputs[0].state).TemperatureFromEnthalpy(e.outputs[0].state.thermo.enthalpy)
        == Success(e.outputs[0].state.thermo.temperature)
  {
    hide FlashHP, FlashTP, MaterialInput, HeatedEnthalpy, Worse, Liquid.TemperatureFromEnthalpy;
    InputOfOne(inputs, Inlet);
    var s := inputs[0].state;
    FlashHPMeaning(services.registry, s.thermo.package, s.composition,
                   HeatedEnthalpy(s, u.parameters[HeatDuty]).value, s.thermo.pressure);
  }

  /** A source of a registered liquid with positive heat capacity succeeds exactly when its three
      quantities are given and the temperature lies in the hard range. */
  lemma SourceSucceedsIff(u: Unit, services: Services, slope: real)
    requires MATERIAL_ID in u.metadata && u.metadata[MATERIAL_ID] in services.materials
    requires var material, package := u.metadata[MATERIAL_ID], services.materials[u.metadata[MATERIAL_ID]];
      && package in services.registry && services.registry[package].id == package
      && material in services.registry[package].liquids
      && Regular(services.registry[package].liquids[material], slope)
    ensures var l := services.registry[services.materials[u.metadata[MATERIAL_ID]]].liquids[u.metadata[MATERIAL_ID]];
      EvaluateSource(u, services).Success? <==>
        && {MassFlow, Temperature, Pressure} <= u.parameters.Keys
        && l.hardMinimum <= u.parameters[Temperature] <= l.hardMaximum
  {
    hide Liquid.HeatCapacity, Liquid.Enthalpy;
    var l := services.registry[services.materials[u.metadata[MATERIAL_ID]]].liquids[u.metadata[MATERIAL_ID]];
    if Temperature in u.parameters {
      var t := u.parameters[Temperature];
      assert l.hardMinimum <= t <= l.hardMaximum ==> l.HeatCapacity(t) >= slope;
    }
  }

  /** A radiator succeeds exactly when the target is a temperature its material's own liquid may have,
      the stream flows, and is not colder than that by its enthalpy; the outlet enthalpy is one the
      stream's liquid can have; the emissivity is positive and at most one; and the mean temperature
      differs from the sink's in the fourth power. */
  lemma RadiatorSucceedsIff(u: Unit, services: Services, inputs: seq<PortValue>, slope: real, target: real)
    requires Fed(services, inputs, slope) && OutletTemperature in u.parameters
    requires target == u.parameters[OutletTemperature] && Emissivity in u.parameters
    requires inputs[0].state.material in services.materials
    requires KnownFluid(services.registry, services.materials[inputs[0].state.material], inputs[0].state.composition)
    ensures var s := inputs[0].state;
      var own := LiquidOf(services.registry, services.materials[s.material], s.composition).value;
      var l := StreamLiquid(services.registry, s);
      EvaluateRadiator(u, services, inputs).Success? <==>
        && Allowed(own, target) && s.massFlow > 0.0 && own.Enthalpy(target) <= s.thermo.enthalpy
        && Spans(l, own.Enthalpy(target)) && 0.0 < u.parameters[Emissivity] <= 1.0
        && l.TemperatureFromEnthalpy(own.Enthalpy(target)).Success?
        && FourthPower(0.5 * (s.thermo.temperature + l.TemperatureFromEnthalpy(own.Enthalpy(target)).value))
           != FourthPower(SINK_TEMPERATURE)
  {
    hide Flashed, StreamLiquid, FlashTP, FlashHP, HeatedBy, TargetDuty, MaterialInput, Spans, Regular, Allowed,
         FourthPower, Flux, Divide, Liquid.Enthalpy, Liquid.TemperatureFromEnthalpy, KnownFluid;
    InputOfOne(inputs, Inlet);
    var s := inputs[0].state;
    TargetIs(services, s, target);
    if TargetDuty(services, s, target).Success? {
      var duty := TargetDuty(services, s, target).value;
      TargetHeats(u, services, inputs, slope, target, duty);
      if HeatedBy(u, services, inputs, duty).Success? {
        var after := HeatedBy(u, services, inputs, duty).value.outputs[0].state.thermo.temperature;
        FluxIsZeroIff(u.parameters[Emissivity], 0.5 * (s.thermo.temperature + after));
        DividesIff(Abs(duty), Flux(u.parameters[Emissivity], 0.5 * (s.thermo.temperature + after)));
      }
    }
  }

  lemma DividesIff(x: real, y: real)
    ensures Divide(x, y).Success? <==> y != 0.0
  {
  }

  lemma FluxIsZeroIff(emissivity: real, mean: real)
    ensures emissivity > 0.0 ==> (Flux(emissivity, mean) == 0.0 <==> FourthPower(mean) == FourthPower(SINK_TEMPERATURE))
  {
    hide FourthPower;
    var k, d := 2.0 * emissivity * STEFAN_BOLTZMANN, FourthPower(mean) - FourthPower(SINK_TEMPERATURE);
    assert emissivity > 0.0 ==> k > 0.0;
    assert Flux(emissivity, mean) == k * d;
    if emissivity > 0.0 && d != 0.0 { assert k * d != 0.0; }
  }

  /** The duty that takes a stream to a temperature of its material's own liquid. */
  lemma TargetIs(services: Services, s: MaterialState, target: real)
    requires s.material in services.materials
    requires KnownFluid(services.registry, services.materials[s.material], s.composition)
    ensures var own := LiquidOf(services.registry, services.materials[s.material], s.composition).value;
      && (TargetDuty(services, s, target).Success? <==> Allowed(own, target))
      && (TargetDuty(services, s, target).Success? ==>
            TargetDuty(services, s, target).value == s.massFlow * (own.Enthalpy(target) - s.thermo.enthalpy))
  {
    hide FlashTP, Allowed, Liquid.Enthalpy;
    FlashTPSucceedsIff(services.registry, services.materials[s.material], s.composition, target, s.thermo.pressure);
    if FlashTP(services.registry, services.materials[s.material], s.composition, target, s.thermo.pressure).Success? {
      FlashTPMeaning(services.registry, services.materials[s.material], s.composition, target, s.thermo.pressure);
    }
  }

  /** Putting that duty in ends at the target's enthalpy, and heats or cools as that lies. */
  lemma TargetHeats(u: Unit, services: Services, inputs: seq<PortValue>, slope: real, target: real, duty: real)
    requires Fed(services, inputs, slope) && inputs[0].state.material in services.materials
    requires KnownFluid(services.registry, services.materials[inputs[0].state.material], inputs[0].state.composition)
    requires var s := inputs[0].state;
      var own := LiquidOf(services.registry, services.materials[s.material], s.composition).value;
      duty == s.massFlow * (own.Enthalpy(target) - s.thermo.enthalpy)
    ensures var s := inputs[0].state;
      var own := LiquidOf(services.registry, services.materials[s.material], s.composition).value;
      var l := StreamLiquid(services.registry, s);
      var r := HeatedBy(u, services, inputs, duty);
      && (r.Success? <==> s.massFlow > 0.0 && Spans(l, own.Enthalpy(target)))
      && (r.Success? ==>
            && |r.value.outputs| == 2 && r.value.outputs[0].MaterialValue?
            && l.TemperatureFromEnthalpy(own.Enthalpy(target)) == Success(r.value.outputs[0].state.thermo.temperature)
            && (duty <= 0.0 <==> own.Enthalpy(target) <= s.thermo.enthalpy))
  {
    hide Flashed, StreamLiquid, FlashHP, MaterialInput, Spans, Regular, Worse, Liquid.Enthalpy,
         Liquid.TemperatureFromEnthalpy;
    InputOfOne(inputs, Inlet);
    var s := inputs[0].state;
    var h := LiquidOf(services.registry, services.materials[s.material], s.composition).value.Enthalpy(target);
    if s.massFlow > 0.0 {
      HeatedToward(s, h, duty);
      FlashHPIffSpans(services.registry, s, slope, h);
      hide HeatedEnthalpy;
      if FlashHP(services.registry, s.thermo.package, s.composition, h, s.thermo.pressure).Success? {
        FlashHPMeaning(services.registry, s.thermo.package, s.composition, h, s.thermo.pressure);
        StreamLiquidIs(services.registry, s);
      }
    }
  }

  lemma StreamLiquidIs(registry: Registry, s: MaterialState)
    requires Flashed(registry, s)
    ensures LiquidOf(registry, s.thermo.package, s.composition) == Some(StreamLiquid(registry, s))
  {
  }

  lemma HeatedToward(s: MaterialState, h: real, duty: real)
    requires s.massFlow > 0.0 && duty == s.massFlow * (h - s.thermo.enthalpy)
    ensures HeatedEnthalpy(s, duty) == Success(h)
    ensures duty <= 0.0 <==> h <= s.thermo.enthalpy
  {
    assert duty / s.massFlow == h - s.thermo.enthalpy;
    SignOfProduct(s.massFlow, s.thermo.enthalpy - h);
  }

  // ---- What a unit needs ----------------------------------------------------------------------

  /** A unit that has what its descriptor requires and is fed on its inlets never fails for a missing
      value. */
  lemma RequiredIsEnough(u: Unit, services: Services, inputs: seq<PortValue>)
    requires !u.model.OtherModel? && Fills(inputs, Inlets(u.model))
    requires forall p :: p in ReferenceDescriptor(u.model).requiredParameters ==> p in u.parameters
    requires forall m :: m in ReferenceDescriptor(u.model).requiredMetadata ==> m in u.metadata
    ensures Evaluate(u, services, inputs) != Failure(MissingValue)
  {
    hide *;
    ReferencePorts(u.model);
    RequiredOf(u.model);
    EvaluatesAs(u, services, inputs);
    match u.model
    case Source => SourceFinds(u, services);
    case Sink => SinkFinds(u, inputs);
    case Heater => HeaterFinds(u, services, inputs);
    case Mixer => MixerFinds(u, services, inputs);
    case Splitter => SplitterFinds(u, inputs);
    case HeatExchanger => ExchangerFinds(u, services, inputs);
    case Radiator => RadiatorFinds(u, services, inputs);
  }

  lemma RequiredOf(m: Model)
    requires !m.OtherModel?
    ensures var d := ReferenceDescriptor(m);
      match m
      case Source =>
        MassFlow in d.requiredParameters && Temperature in d.requiredParameters && Pressure in d.requiredParameters
        && MATERIAL_ID in d.requiredMetadata
      case Heater => HeatDuty in d.requiredParameters
      case Splitter => SplitFraction in d.requiredParameters
      case HeatExchanger => Effectiveness in d.requiredParameters
      case Radiator => OutletTemperature in d.requiredParameters && Emissivity in d.requiredParameters
      case _ => true
  {
  }

  lemma EvaluatesAs(u: Unit, services: Services, inputs: seq<PortValue>)
    ensures var r := Evaluate(u, services, inputs);
      match u.model
      case Source => r == EvaluateSource(u, services)
      case Sink => r == EvaluateSink(u, inputs)
      case Heater => r == EvaluateHeater(u, services, inputs)
      case Mixer => r == EvaluateMixer(u, services, inputs)
      case Splitter => r == EvaluateSplitter(u, inputs)
      case HeatExchanger => r == EvaluateExchanger(u, services, inputs)
      case Radiator => r == EvaluateRadiator(u, services, inputs)
      case _ => true
  {
  }

  lemma SourceFinds(u: Unit, services: Services)
    requires {MassFlow, Temperature, Pressure} <= u.parameters.Keys && MATERIAL_ID in u.metadata
    ensures EvaluateSource(u, services) != Failure(MissingValue)
  {
    hide FlashTP;
    FlashesFind();
  }

  lemma SinkFinds(u: Unit, inputs: seq<PortValue>)
    requires Fills(inputs, [MaterialIn(Inlet)])
    ensures EvaluateSink(u, inputs) != Failure(MissingValue)
  {
    InputOfOne(inputs, Inlet);
    hide MaterialInput;
  }

  lemma HeaterFinds(u: Unit, services: Services, inputs: seq<PortValue>)
    requires Fills(inputs, [MaterialIn(Inlet)]) && HeatDuty in u.parameters
    ensures EvaluateHeater(u, services, inputs) != Failure(MissingValue)
  {
    hide FlashHP, MaterialInput, HeatedEnthalpy, Worse, Fills;
    FlashesFind();
    DividesFind();
    InputOfOne(inputs, Inlet);
  }

  lemma MixerFinds(u: Unit, services: Services, inputs: seq<PortValue>)
    requires Fills(inputs, [MaterialIn(InletA), MaterialIn(InletB)])
    ensures EvaluateMixer(u, services, inputs) != Failure(MissingValue)
  {
    hide FlashHP, MaterialInput, MixedEnthalpy, Worse, Fills;
    FlashesFind();
    DividesFind();
    InputOfTwo(inputs, InletA, InletB);
  }

  lemma SplitterFinds(u: Unit, inputs: seq<PortValue>)
    requires Fills(inputs, [MaterialIn(Inlet)]) && SplitFraction in u.parameters
    ensures EvaluateSplitter(u, inputs) != Failure(MissingValue)
  {
    hide MaterialInput, Fills;
    InputOfOne(inputs, Inlet);
  }

  lemma ExchangerFinds(u: Unit, services: Services, inputs: seq<PortValue>)
    requires Fills(inputs, [MaterialIn(HotIn), MaterialIn(ColdIn)]) && Effectiveness in u.parameters
    ensures EvaluateExchanger(u, services, inputs) != Failure(MissingValue)
  {
    hide FlashTP, FlashHP, MaterialInput, HeatedEnthalpy, DutyLimits, Worse, Fills;
    FlashesFind();
    DividesFind();
    InputOfTwo(inputs, HotIn, ColdIn);
  }

  lemma RadiatorFinds(u: Unit, services: Services, inputs: seq<PortValue>)
    requires Fills(inputs, [MaterialIn(Inlet)]) && OutletTemperature in u.parameters && Emissivity in u.parameters
    ensures EvaluateRadiator(u, services, inputs) != Failure(MissingValue)
  {
    hide FlashTP, FlashHP, MaterialInput, HeatedEnthalpy, Flux, Divide, Worse, Fills;
    FlashesFind();
    DividesFind();
    InputOfOne(inputs, Inlet);
  }

  /** A flash or a division that fails does so for another reason. */
  lemma FlashesFind()
    ensures forall registry, package, composition, t, p ::
      FlashTP(registry, package, composition, t, p) != Failure(MissingValue)
    ensures forall registry, package, composition, h, p ::
      FlashHP(registry, package, composition, h, p) != Failure(MissingValue)
  {
  }

  lemma DividesFind()
    ensures forall x, y :: Divide(x, y) != Failure(MissingValue)
    ensures forall s, duty :: HeatedEnthalpy(s, duty) != Failure(MissingValue)
    ensures forall a, b :: MixedEnthalpy(a, b) != Failure(MissingValue)
    ensures forall services, hot, cold :: DutyLimits(services, hot, cold) != Failure(MissingValue)
  {
    FlashesFind();
    hide FlashTP;
  }

  /** And no required value can be left out: without any of them every evaluation fails. */
  lemma RequiredIsNeeded(u: Unit, services: Services, inputs: seq<PortValue>)
    requires !u.model.OtherModel? && Fills(inputs, Inlets(u.model)) && Evaluate(u, services, inputs).Success?
    ensures forall p :: p in ReferenceDescriptor(u.model).requiredParameters ==> p in u.parameters
    ensures forall m :: m in ReferenceDescriptor(u.model).requiredMetadata ==> m in u.metadata
  {
    hide FlashTP, FlashHP, MaterialInput, HeatedEnthalpy, MixedEnthalpy, DutyLimits, Flux, Divide, Worse;
  }
}
