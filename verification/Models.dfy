/** The seven reference unit operations: what each evaluation produces from its inlets. */
module Models {
  import opened Wrappers
  import opened Numerics
  import opened Properties
  import opened Flash

  datatype PortId =
    | Inlet | Outlet | InletA | InletB | OutletA | OutletB
    | HotIn | HotOut | ColdIn | ColdOut | Duty
    | OtherPort(text: string)

  datatype Model =
    | Source | Sink | Heater | Mixer | Splitter | HeatExchanger | Radiator
    | OtherModel(name: string)

  datatype Parameter =
    | MassFlow | Temperature | Pressure | HeatDuty | SplitFraction | Effectiveness
    | OutletTemperature | Emissivity | OtherParameter(text: string)

  /** Identity, model, quantities already in SI units, and the `material_id` metadata. */
  datatype Unit = Unit(id: Id, model: Model, parameters: map<Parameter, real>, metadata: map<string, Id>)

  const MATERIAL_ID := "material_id"

  datatype MaterialState = MaterialState(
    material: Id, composition: seq<Component>, massFlow: real, thermo: ThermoState)

  datatype PortValue =
    | MaterialValue(port: PortId, state: MaterialState)
    | EnergyValue(port: PortId, duty: real)

  datatype Evaluation = Evaluation(unit: Id, outputs: seq<PortValue>, validity: Validity)

  /** Material references (each naming its property package) and the property registry. */
  datatype Services = Services(registry: Registry, materials: map<Id, Id>)

  type Outcome = Result<Evaluation, EvalError>

  function Severity(v: Validity): nat {
    match v
    case Unknown => 0
    case Valid => 1
    case Extrapolated => 2
    case Invalid => 3
  }

  function Worse(a: Validity, b: Validity): Validity {
    if Severity(a) >= Severity(b) then a else b
  }

  function ParameterOf(u: Unit, p: Parameter): Result<real, EvalError> {
    if p in u.parameters then Success(u.parameters[p]) else Failure(MissingValue)
  }

  /** `_material_input`: the first material value at the port. */
  function MaterialInput(inputs: seq<PortValue>, port: PortId): Result<MaterialState, EvalError> {
    if inputs == [] then Failure(MissingValue)
    else if inputs[0].MaterialValue? && inputs[0].port == port then Success(inputs[0].state)
    else MaterialInput(inputs[1..], port)
  }

  function Divide(x: real, y: real): Result<real, EvalError> {
    if y == 0.0 then Failure(DivisionByZero) else Success(x / y)
  }

  function EvaluateSource(u: Unit, services: Services): Outcome {
    if MATERIAL_ID !in u.metadata then Failure(MissingValue)
    else
      var material := u.metadata[MATERIAL_ID];
      if material !in services.materials then Failure(UnknownMaterial)
      else
        var composition := [Component(material, 1.0)];
        var t :- ParameterOf(u, Temperature);
        var p :- ParameterOf(u, Pressure);
        var thermo :- FlashTP(services.registry, services.materials[material], composition, t, p);
        var flow :- ParameterOf(u, MassFlow);
        Success(Evaluation(u.id,
          [MaterialValue(Outlet, MaterialState(material, composition, flow, thermo))],
          thermo.validity))
  }

  function EvaluateSink(u: Unit, inputs: seq<PortValue>): Outcome {
    var state :- MaterialInput(inputs, Inlet);
    Success(Evaluation(u.id, [], state.thermo.validity))
  }

  /** Specific enthalpy after `duty` is added to the stream (removed when negative). */
  function HeatedEnthalpy(s: MaterialState, duty: real): Result<real, EvalError> {
    var rise :- Divide(duty, s.massFlow);
    Success(s.thermo.enthalpy + rise)
  }

  /** The heater with its duty given: the radiator evaluates through it too. */
  function HeatedBy(u: Unit, services: Services, inputs: seq<PortValue>, duty: real): Outcome {
    var inlet :- MaterialInput(inputs, Inlet);
    if inlet.massFlow <= 0.0 then Failure(RejectedInput)
    else
      var h :- HeatedEnthalpy(inlet, duty);
      var thermo :- FlashHP(services.registry, inlet.thermo.package, inlet.composition, h, inlet.thermo.pressure);
      Success(Evaluation(u.id,
        [MaterialValue(Outlet, inlet.(thermo := thermo)), EnergyValue(Duty, duty)],
        Worse(inlet.thermo.validity, thermo.validity)))
  }

  function EvaluateHeater(u: Unit, services: Services, inputs: seq<PortValue>): Outcome {
    var _ :- MaterialInput(inputs, Inlet);
    var duty :- ParameterOf(u, HeatDuty);
    HeatedBy(u, services, inputs, duty)
  }

  function MixedEnthalpy(first: MaterialState, second: MaterialState): Result<real, EvalError> {
    Divide(first.massFlow * first.thermo.enthalpy + second.massFlow * second.thermo.enthalpy,
           first.massFlow + second.massFlow)
  }

  function EvaluateMixer(u: Unit, services: Services, inputs: seq<PortValue>): Outcome {
    var first :- MaterialInput(inputs, InletA);
    var second :- MaterialInput(inputs, InletB);
    if first.material != second.material || first.composition != second.composition then Failure(RejectedInput)
    else
      var total := first.massFlow + second.massFlow;
      var h :- MixedEnthalpy(first, second);
      var p := Min(first.thermo.pressure, second.thermo.pressure);
      var thermo :- FlashHP(services.registry, first.thermo.package, first.composition, h, p);
      Success(Evaluation(u.id,
        [MaterialValue(Outlet, MaterialState(first.material, first.composition, total, thermo))],
        Worse(Worse(first.thermo.validity, second.thermo.validity), thermo.validity)))
  }

  function Share(s: MaterialState, fraction: real): MaterialState {
    s.(massFlow := s.massFlow * fraction)
  }

  function EvaluateSplitter(u: Unit, inputs: seq<PortValue>): Outcome {
    var inlet :- MaterialInput(inputs, Inlet);
    var fraction :- ParameterOf(u, SplitFraction);
    if !(0.0 <= fraction <= 1.0) then Failure(RejectedInput)
    else
      Success(Evaluation(u.id,
        [MaterialValue(OutletA, Share(inlet, fraction)),
         MaterialValue(OutletB, Share(inlet, 1.0 - fraction))],
        inlet.thermo.validity))
  }

  /** The two enthalpy-limited duties of an exchanger, hot side and cold side. */
  function DutyLimits(services: Services, hot: MaterialState, cold: MaterialState)
    : Result<(real, real), EvalError>
  {
    var hotAtCold :- FlashTP(services.registry, hot.thermo.package, hot.composition,
                             cold.thermo.temperature, hot.thermo.pressure);
    var coldAtHot :- FlashTP(services.registry, cold.thermo.package, cold.composition,
                             hot.thermo.temperature, cold.thermo.pressure);
    Success((hot.massFlow * (hot.thermo.enthalpy - hotAtCold.enthalpy),
             cold.massFlow * (coldAtHot.enthalpy - cold.thermo.enthalpy)))
  }

  function EffectiveDuty(effectiveness: real, limit: real): real {
    effectiveness * limit
  }

  function ExchangerDuty(services: Services, hot: MaterialState, cold: MaterialState, effectiveness: real)
    : Result<real, EvalError>
  {
    var (hotLimit, coldLimit) :- DutyLimits(services, hot, cold);
    Success(EffectiveDuty(effectiveness, Min(hotLimit, coldLimit)))
  }

  function EvaluateExchanger(u: Unit, services: Services, inputs: seq<PortValue>): Outcome {
    var hot :- MaterialInput(inputs, HotIn);
    var cold :- MaterialInput(inputs, ColdIn);
    var effectiveness :- ParameterOf(u, Effectiveness);
    if !(0.0 <= effectiveness <= 1.0) then Failure(RejectedInput)
    else if hot.thermo.temperature <= cold.thermo.temperature then Failure(RejectedInput)
    else
      var duty :- ExchangerDuty(services, hot, cold, effectiveness);
      var hotH :- HeatedEnthalpy(hot, -duty);
      var coldH :- HeatedEnthalpy(cold, duty);
      var hotThermo :- FlashHP(services.registry, hot.thermo.package, hot.composition, hotH, hot.thermo.pressure);
      var coldThermo :- FlashHP(services.registry, cold.thermo.package, cold.composition, coldH, cold.thermo.pressure);
      Success(Evaluation(u.id,
        [MaterialValue(HotOut, hot.(thermo := hotThermo)), MaterialValue(ColdOut, cold.(thermo := coldThermo))],
        Worse(Worse(hot.thermo.validity, cold.thermo.validity), Worse(hotThermo.validity, coldThermo.validity))))
  }

  const STEFAN_BOLTZMANN: real := 0.00000005670374419
  const SINK_TEMPERATURE: real := 3.0

  function FourthPower(t: real): real {
    t * t * (t * t)
  }

  /** The duty that takes the stream to the state at the target temperature. */
  function TargetDuty(services: Services, inlet: MaterialState, target: real): Result<real, EvalError> {
    if inlet.material !in services.materials then Failure(UnknownMaterial)
    else
      var state :- FlashTP(services.registry, services.materials[inlet.material], inlet.composition,
                           target, inlet.thermo.pressure);
      Success(inlet.massFlow * (state.enthalpy - inlet.thermo.enthalpy))
  }

  /** Radiated power per area of the two sides at the mean stream temperature. */
  function Flux(emissivity: real, mean: real): real {
    2.0 * emissivity * STEFAN_BOLTZMANN * (FourthPower(mean) - FourthPower(SINK_TEMPERATURE))
  }

  function EvaluateRadiator(u: Unit, services: Services, inputs: seq<PortValue>): Outcome {
    var inlet :- MaterialInput(inputs, Inlet);
    var target :- ParameterOf(u, OutletTemperature);
    var duty :- TargetDuty(services, inlet, target);
    var result :- HeatedBy(u, services, inputs, duty);
    if duty > 0.0 then Failure(RejectedInput)
    else
      var emissivity :- ParameterOf(u, Emissivity);
      if !(0.0 < emissivity <= 1.0) then Failure(RejectedInput)
      else
        var mean := 0.5 * (inlet.thermo.temperature + result.outputs[0].state.thermo.temperature);
        var _ :- Divide(Abs(duty), Flux(emissivity, mean));
        Success(result)
  }

  function Evaluate(u: Unit, services: Services, inputs: seq<PortValue>): Outcome {
    match u.model
    case Source => EvaluateSource(u, services)
    case Sink => EvaluateSink(u, inputs)
    case Heater => EvaluateHeater(u, services, inputs)
    case Mixer => EvaluateMixer(u, services, inputs)
    case Splitter => EvaluateSplitter(u, inputs)
    case HeatExchanger => EvaluateExchanger(u, services, inputs)
    case Radiator => EvaluateRadiator(u, services, inputs)
    case OtherModel(_) => Failure(RejectedInput)
  }
}
