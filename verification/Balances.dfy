/** Mass and energy over one evaluated unit. */
module Balances {
  import opened Wrappers
  import opened Numerics
  import opened Flash
  import opened Models
  import opened Catalogue

  /** The two conserved quantities, handled alike. */
  datatype Measure = Mass | Heat

  /** What a material stream carries: its mass flow, or its enthalpy flow. */
  function Carried(m: Measure, s: MaterialState): real {
    match m
    case Mass => s.massFlow
    case Heat => s.massFlow * s.thermo.enthalpy
  }

  /** Material flow summed over port values, in order. */
  function MaterialFlow(m: Measure, values: seq<PortValue>): real {
    if values == [] then 0.0
    else (if values[0].MaterialValue? then Carried(m, values[0].state) else 0.0) + MaterialFlow(m, values[1..])
  }

  /** Duty summed over the energy port values, in order. */
  function DutyFlow(values: seq<PortValue>): real {
    if values == [] then 0.0
    else (if values[0].EnergyValue? then values[0].duty else 0.0) + DutyFlow(values[1..])
  }

  /** What the equipment adds to the measured quantity. */
  function Added(m: Measure, values: seq<PortValue>): real {
    match m
    case Mass => 0.0
    case Heat => DutyFlow(values)
  }

  /** The ports of one direction, in descriptor order. */
  function PortsOf(ports: seq<Port>, d: Direction): seq<Port> {
    if ports == [] then []
    else
      var n := |ports| - 1;
      PortsOf(ports[..n], d) + (if ports[n].direction == d then [ports[n]] else [])
  }

  /** The values carry the ports' identifiers and kinds, one for one. */
  predicate Fills(values: seq<PortValue>, ports: seq<Port>) {
    && |values| == |ports|
    && forall i :: 0 <= i < |ports| ==>
         values[i].port == ports[i].id && (values[i].MaterialValue? <==> ports[i].kind == Material)
  }

  lemma QuotientTimes(x: real, y: real)
    requires y != 0.0
    ensures y * (x / y) == x
  {
  }

  /** Duty as it enters the measured quantity. */
  function Boost(m: Measure, duty: real): real {
    match m
    case Mass => 0.0
    case Heat => duty
  }

  lemma HeatedFlow(m: Measure, s: MaterialState, duty: real, thermo: ThermoState)
    requires HeatedEnthalpy(s, duty) == Success(thermo.enthalpy)
    ensures Carried(m, s.(thermo := thermo)) == Carried(m, s) + Boost(m, duty)
  {
    QuotientTimes(duty, s.massFlow);
    assert s.massFlow * (s.thermo.enthalpy + duty / s.massFlow)
        == s.massFlow * s.thermo.enthalpy + s.massFlow * (duty / s.massFlow);
  }

  lemma MixedFlow(m: Measure, a: MaterialState, b: MaterialState, out: MaterialState)
    requires MixedEnthalpy(a, b) == Success(out.thermo.enthalpy) && out.massFlow == a.massFlow + b.massFlow
    ensures Carried(m, out) == Carried(m, a) + Carried(m, b)
  {
    QuotientTimes(a.massFlow * a.thermo.enthalpy + b.massFlow * b.thermo.enthalpy, a.massFlow + b.massFlow);
  }

  lemma SplitFlow(m: Measure, s: MaterialState, g: real)
    ensures Carried(m, Share(s, g)) + Carried(m, Share(s, 1.0 - g))
         == Carried(m, s)
  {
    var f, h := s.massFlow, s.thermo.enthalpy;
    assert f * g + f * (1.0 - g) == f;
    assert f * g * h + f * (1.0 - g) * h == (f * g + f * (1.0 - g)) * h;
  }

  lemma FlowOfOne(m: Measure, v: PortValue)
    ensures MaterialFlow(m, [v]) == (if v.MaterialValue? then Carried(m, v.state) else 0.0)
    ensures Added(m, [v]) == (if v.EnergyValue? then Boost(m, v.duty) else 0.0)
    ensures Added(m, []) == 0.0
  {
    assert [v][1..] == [];
    assert DutyFlow([v]) == (if v.EnergyValue? then v.duty else 0.0) + DutyFlow([]);
  }

  lemma FlowOfTwo(m: Measure, v: PortValue, w: PortValue)
    ensures MaterialFlow(m, [v, w]) == (if v.MaterialValue? then Carried(m, v.state) else 0.0)
                                     + (if w.MaterialValue? then Carried(m, w.state) else 0.0)
    ensures Added(m, [v, w]) == (if v.EnergyValue? then Boost(m, v.duty) else 0.0)
                              + (if w.EnergyValue? then Boost(m, w.duty) else 0.0)
  {
    assert [v, w][1..] == [w];
    FlowOfOne(m, w);
    assert DutyFlow([v, w]) == (if v.EnergyValue? then v.duty else 0.0) + DutyFlow([w]);
  }

  lemma InputOfOne(inputs: seq<PortValue>, a: PortId)
    requires Fills(inputs, [MaterialIn(a)])
    ensures inputs == [inputs[0]] && MaterialInput(inputs, a) == Success(inputs[0].state)
  {
  }

  lemma InputOfTwo(inputs: seq<PortValue>, a: PortId, b: PortId)
    requires a != b && Fills(inputs, [MaterialIn(a), MaterialIn(b)])
    ensures inputs == [inputs[0], inputs[1]]
    ensures MaterialInput(inputs, a) == Success(inputs[0].state)
    ensures MaterialInput(inputs, b) == Success(inputs[1].state)
  {
    assert inputs[1..] == [inputs[1]];
  }

  /** What a unit that is neither source nor sink owes: outlets as declared, and the
      outflow equal to the inflow plus the reported duty. */
  ghost predicate Balanced(m: Measure, inputs: seq<PortValue>, outputs: seq<PortValue>, outlets: seq<Port>) {
    && Fills(outputs, outlets)
    && MaterialFlow(m, outputs) == MaterialFlow(m, inputs) + Added(m, outputs)
  }

  lemma HeaterBalance(m: Measure, u: Unit, services: Services, inputs: seq<PortValue>, duty: real)
    requires HeatedBy(u, services, inputs, duty).Success? && Fills(inputs, [MaterialIn(Inlet)])
    ensures Balanced(m, inputs, HeatedBy(u, services, inputs, duty).value.outputs,
                     [MaterialOut(Outlet), ENERGY_OUT])
  {
    hide FlashHP, MaterialInput, HeatedEnthalpy, Carried, MaterialFlow, DutyFlow, Worse;
    InputOfOne(inputs, Inlet);
    var out := HeatedBy(u, services, inputs, duty).value.outputs;
    var inlet := inputs[0].state;
    FlashHPMeaning(services.registry, inlet.thermo.package, inlet.composition,
                   HeatedEnthalpy(inlet, duty).value, inlet.thermo.pressure);
    FlowOfOne(m, inputs[0]);
    FlowOfTwo(m, out[0], out[1]);
    HeatedFlow(m, inlet, duty, out[0].state.thermo);
  }

  lemma MixerBalance(m: Measure, u: Unit, services: Services, inputs: seq<PortValue>)
    requires EvaluateMixer(u, services, inputs).Success?
    requires Fills(inputs, [MaterialIn(InletA), MaterialIn(InletB)])
    ensures Balanced(m, inputs, EvaluateMixer(u, services, inputs).value.outputs, [MaterialOut(Outlet)])
  {
    hide FlashHP, MaterialInput, MixedEnthalpy, Carried, MaterialFlow, DutyFlow, Worse;
    InputOfTwo(inputs, InletA, InletB);
    var out := EvaluateMixer(u, services, inputs).value.outputs;
    var a, b := inputs[0].state, inputs[1].state;
    FlashHPMeaning(services.registry, a.thermo.package, a.composition, MixedEnthalpy(a, b).value,
                   Min(a.thermo.pressure, b.thermo.pressure));
    FlowOfTwo(m, inputs[0], inputs[1]);
    FlowOfOne(m, out[0]);
    MixedFlow(m, a, b, out[0].state);
  }

  lemma SplitterBalance(m: Measure, u: Unit, inputs: seq<PortValue>)
    requires EvaluateSplitter(u, inputs).Success? && Fills(inputs, [MaterialIn(Inlet)])
    ensures Balanced(m, inputs, EvaluateSplitter(u, inputs).value.outputs,
                     [MaterialOut(OutletA), MaterialOut(OutletB)])
  {
    hide MaterialInput, Carried, Share, MaterialFlow, DutyFlow;
    InputOfOne(inputs, Inlet);
    var out := EvaluateSplitter(u, inputs).value.outputs;
    FlowOfOne(m, inputs[0]);
    FlowOfTwo(m, out[0], out[1]);
    SplitFlow(m, inputs[0].state, u.parameters[SplitFraction]);
  }

  /** What a successful exchanger evaluation consists of. */
  lemma ExchangerSteps(u: Unit, services: Services, inputs: seq<PortValue>)
    returns (duty: real, hotOut: ThermoState, coldOut: ThermoState)
    requires EvaluateExchanger(u, services, inputs).Success?
    requires Fills(inputs, [MaterialIn(HotIn), MaterialIn(ColdIn)])
    ensures var hot, cold := inputs[0].state, inputs[1].state;
            && Effectiveness in u.parameters && 0.0 <= u.parameters[Effectiveness] <= 1.0
            && hot.thermo.temperature > cold.thermo.temperature
            && ExchangerDuty(services, hot, cold, u.parameters[Effectiveness]) == Success(duty)
            && HeatedEnthalpy(hot, -duty).Success? && HeatedEnthalpy(cold, duty).Success?
            && FlashHP(services.registry, hot.thermo.package, hot.composition,
                       HeatedEnthalpy(hot, -duty).value, hot.thermo.pressure) == Success(hotOut)
            && FlashHP(services.registry, cold.thermo.package, cold.composition,
                       HeatedEnthalpy(cold, duty).value, cold.thermo.pressure) == Success(coldOut)
            && EvaluateExchanger(u, services, inputs).value.outputs
            == [MaterialValue(HotOut, hot.(thermo := hotOut)), MaterialValue(ColdOut, cold.(thermo := coldOut))]
  {
    hide FlashHP, ExchangerDuty, MaterialInput, HeatedEnthalpy, Worse;
    InputOfTwo(inputs, HotIn, ColdIn);
    var out := EvaluateExchanger(u, services, inputs).value.outputs;
    duty := ExchangerDuty(services, inputs[0].state, inputs[1].state, u.parameters[Effectiveness]).value;
    hotOut, coldOut := out[0].state.thermo, out[1].state.thermo;
  }

  /** A stream brought by an H-P flash to its heated enthalpy carries the duty on. */
  lemma FlashedFlow(m: Measure, registry: Registry, s: MaterialState, duty: real, after: ThermoState)
    requires HeatedEnthalpy(s, duty).Success?
    requires FlashHP(registry, s.thermo.package, s.composition, HeatedEnthalpy(s, duty).value, s.thermo.pressure)
          == Success(after)
    ensures Carried(m, s.(thermo := after)) == Carried(m, s) + Boost(m, duty)
  {
    hide FlashHP, HeatedEnthalpy, Carried, LiquidOf;
    FlashHPMeaning(registry, s.thermo.package, s.composition, HeatedEnthalpy(s, duty).value, s.thermo.pressure);
    HeatedFlow(m, s, duty, after);
  }

  /** What leaves on two outlets is what came in on two inlets. */
  lemma BalancedPair(m: Measure, inputs: seq<PortValue>, a: PortId, b: PortId, v: MaterialState, w: MaterialState)
    requires |inputs| == 2 && inputs[0].MaterialValue? && inputs[1].MaterialValue?
    requires Carried(m, v) + Carried(m, w) == Carried(m, inputs[0].state) + Carried(m, inputs[1].state)
    ensures Balanced(m, inputs, [MaterialValue(a, v), MaterialValue(b, w)], [MaterialOut(a), MaterialOut(b)])
  {
    hide Carried, MaterialFlow, DutyFlow;
    assert inputs == [inputs[0], inputs[1]];
    FlowOfTwo(m, inputs[0], inputs[1]);
    FlowOfTwo(m, MaterialValue(a, v), MaterialValue(b, w));
  }

  lemma ExchangerBalance(m: Measure, u: Unit, services: Services, inputs: seq<PortValue>)
    requires EvaluateExchanger(u, services, inputs).Success?
    requires Fills(inputs, [MaterialIn(HotIn), MaterialIn(ColdIn)])
    ensures Balanced(m, inputs, EvaluateExchanger(u, services, inputs).value.outputs,
                     [MaterialOut(HotOut), MaterialOut(ColdOut)])
  {
    hide FlashHP, ExchangerDuty, HeatedEnthalpy, Carried, EvaluateExchanger, Balanced, LiquidOf;
    var duty, hotOut, coldOut := ExchangerSteps(u, services, inputs);
    var hot, cold := inputs[0].state, inputs[1].state;
    FlashedFlow(m, services.registry, hot, -duty, hotOut);
    FlashedFlow(m, services.registry, cold, duty, coldOut);
    BalancedPair(m, inputs, HotOut, ColdOut, hot.(thermo := hotOut), cold.(thermo := coldOut));
  }

  lemma RadiatorBalance(m: Measure, u: Unit, services: Services, inputs: seq<PortValue>)
    requires EvaluateRadiator(u, services, inputs).Success? && Fills(inputs, [MaterialIn(Inlet)])
    ensures Balanced(m, inputs, EvaluateRadiator(u, services, inputs).value.outputs,
                     [MaterialOut(Outlet), ENERGY_OUT])
  {
    hide MaterialInput, Balanced, TargetDuty, Divide, HeatedBy, Flux;
    InputOfOne(inputs, Inlet);
    HeaterBalance(m, u, services, inputs,
                  TargetDuty(services, inputs[0].state, u.parameters[OutletTemperature]).value);
  }

  /** The declared inlets and outlets, each in descriptor order. */
  function Inlets(model: Model): seq<Port>
    requires !model.OtherModel?
  {
    PortsOf(ReferenceDescriptor(model).ports, Input)
  }

  function Outlets(model: Model): seq<Port>
    requires !model.OtherModel?
  {
    PortsOf(ReferenceDescriptor(model).ports, Output)
  }

  function Picked(p: Port, d: Direction): seq<Port> { if p.direction == d then [p] else [] }

  lemma PickOne(a: Port, d: Direction)
    ensures PortsOf([a], d) == Picked(a, d)
  {
    assert [a][..0] == [];
  }

  lemma PickTwo(a: Port, b: Port, d: Direction)
    ensures PortsOf([a, b], d) == Picked(a, d) + Picked(b, d)
  {
    assert [a, b][..1] == [a];
    PickOne(a, d);
  }

  lemma PickThree(a: Port, b: Port, c: Port, d: Direction)
    ensures PortsOf([a, b, c], d) == Picked(a, d) + Picked(b, d) + Picked(c, d)
  {
    assert [a, b, c][..2] == [a, b];
    PickTwo(a, b, d);
  }

  lemma PickFour(a: Port, b: Port, c: Port, e: Port, d: Direction)
    ensures PortsOf([a, b, c, e], d) == Picked(a, d) + Picked(b, d) + Picked(c, d) + Picked(e, d)
  {
    assert [a, b, c, e][..3] == [a, b, c];
    PickThree(a, b, c, d);
  }

  /** The inlets and outlets of the reference catalogue, spelled out. */
  lemma ReferencePorts(model: Model)
    requires !model.OtherModel?
    ensures Inlets(model) ==
      match model
      case Source => []
      case Mixer => [MaterialIn(InletA), MaterialIn(InletB)]
      case HeatExchanger => [MaterialIn(HotIn), MaterialIn(ColdIn)]
      case _ => [MaterialIn(Inlet)]
    ensures Outlets(model) ==
      match model
      case Sink => []
      case Heater => [MaterialOut(Outlet), ENERGY_OUT]
      case Radiator => [MaterialOut(Outlet), ENERGY_OUT]
      case Splitter => [MaterialOut(OutletA), MaterialOut(OutletB)]
      case HeatExchanger => [MaterialOut(HotOut), MaterialOut(ColdOut)]
      case _ => [MaterialOut(Outlet)]
  {
    hide PortsOf;
    var ports := ReferenceDescriptor(model).ports;
    match |ports|
    case 1 =>
      PickOne(ports[0], Input);
      PickOne(ports[0], Output);
    case 3 =>
      assert ports == [ports[0], ports[1], ports[2]];
      PickThree(ports[0], ports[1], ports[2], Input);
      PickThree(ports[0], ports[1], ports[2], Output);
    case _ =>
      assert ports == [ports[0], ports[1], ports[2], ports[3]];
      PickFour(ports[0], ports[1], ports[2], ports[3], Input);
      PickFour(ports[0], ports[1], ports[2], ports[3], Output);
  }

  /** The unit balance: a successful evaluation fills exactly the declared outlets, and
      every unit but a source or a sink passes on what it was fed plus the duty it reports. */
  lemma UnitBalance(m: Measure, u: Unit, services: Services, inputs: seq<PortValue>)
    requires !u.model.OtherModel? && Evaluate(u, services, inputs).Success?
    requires Fills(inputs, Inlets(u.model))
    ensures var out := Evaluate(u, services, inputs).value.outputs;
            && Fills(out, Outlets(u.model))
            && (u.model != Source && u.model != Sink ==>
                  MaterialFlow(m, out) == MaterialFlow(m, inputs) + Added(m, out))
            && (u.model == Source || u.model == Sink ==> Added(m, out) == 0.0)
            && (u.model == Sink ==> out == [])
  {
    hide FlashTP, HeatedBy, EvaluateMixer, EvaluateSplitter, EvaluateExchanger, EvaluateRadiator,
         Inlets, Outlets, MaterialFlow, DutyFlow;
    ReferencePorts(u.model);
    var out := Evaluate(u, services, inputs).value.outputs;
    match u.model
    case Source => FlowOfOne(m, out[0]);
    case Sink => FlowOfOne(m, inputs[0]);
    case Heater => HeaterBalance(m, u, services, inputs, u.parameters[HeatDuty]);
    case Mixer => MixerBalance(m, u, services, inputs);
    case Splitter => SplitterBalance(m, u, inputs);
    case HeatExchanger => ExchangerBalance(m, u, services, inputs);
    case Radiator => RadiatorBalance(m, u, services, inputs);
  }

  predicate DistinctPorts(ports: seq<Port>) {
    forall i, j :: 0 <= i < j < |ports| ==> ports[i].id != ports[j].id
  }

  lemma FindDistinct(ports: seq<Port>, p: Port)
    requires DistinctPorts(ports) && p in ports
    ensures FindPort(ports, p.id) == Some(p)
  {
    var q := FindPort(ports, p.id).value;
    var i :| 0 <= i < |ports| && ports[i] == p;
    var j :| 0 <= j < |ports| && ports[j] == q;
  }

  lemma {:induction false} PortsOfMembers(ports: seq<Port>, d: Direction)
    ensures forall p :: p in PortsOf(ports, d) <==> p in ports && p.direction == d
    ensures DistinctPorts(ports) ==> DistinctPorts(PortsOf(ports, d))
  {
    if ports != [] {
      var front, last := ports[..|ports| - 1], ports[|ports| - 1];
      assert ports == front + [last];
      PortsOfMembers(front, d);
      if DistinctPorts(ports) {
        var picked := PortsOf(front, d);
        forall i | 0 <= i < |picked| ensures picked[i].id != last.id {
          assert picked[i] in front;
          var k :| 0 <= k < |front| && front[k] == picked[i];
          assert ports[k] == front[k];
        }
      }
    }
  }

  lemma ReferenceDistinct(model: Model)
    requires !model.OtherModel?
    ensures DistinctPorts(ReferenceDescriptor(model).ports)
    ensures forall p :: p in ReferenceDescriptor(model).ports && p.direction == Input ==> p == MaterialIn(p.id)
  {
  }

  /** The shape of the reference catalogue: every inlet takes material and is required, and
      no port identifier repeats. */
  lemma ReferenceShape(model: Model)
    requires !model.OtherModel?
    ensures DistinctPorts(Inlets(model)) && DistinctPorts(Outlets(model))
    ensures forall p :: p in ReferenceDescriptor(model).ports ==>
              && FindPort(ReferenceDescriptor(model).ports, p.id) == Some(p)
              && (p.direction == Input ==> p in Inlets(model) && p == MaterialIn(p.id))
              && (p.direction == Output ==> p in Outlets(model))
    ensures forall p :: p in Inlets(model) ==> p == MaterialIn(p.id) && p in ReferenceDescriptor(model).ports
    ensures forall p :: p in Outlets(model) ==> p.direction == Output && p in ReferenceDescriptor(model).ports
  {
    hide ReferenceDescriptor, PortsOf;
    var ports := ReferenceDescriptor(model).ports;
    ReferenceDistinct(model);
    PortsOfMembers(ports, Input);
    PortsOfMembers(ports, Output);
    forall p | p in ports ensures FindPort(ports, p.id) == Some(p) { FindDistinct(ports, p); }
  }
}
