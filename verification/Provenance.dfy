/** Where the material and the pressure of a stream come from. */
module Provenance {
  import opened Numerics
  import opened Flash
  import opened Models
  import opened Balances
  import opened Digraph
  import opened Compiler
  import opened Runner
  import opened Conservation

  /** The inlet whose stream leaves by an outlet. */
  function InletFor(model: Model, outlet: PortId): PortId {
    match outlet
    case HotOut => HotIn
    case ColdOut => ColdIn
    case Outlet => if model == Mixer then InletA else Inlet
    case _ => Inlet
  }

  /** The stream that leaves is the one that entered: its material, composition and pressure, and
      its flow unless it was mixed or split; mixing takes the lower pressure. */
  predicate Inherits(model: Model, inputs: seq<PortValue>, value: PortValue) {
    value.MaterialValue? ==>
      var from := MaterialInput(inputs, InletFor(model, value.port));
      var s := value.state;
      && from.Success? && s.material == from.value.material && s.composition == from.value.composition
      && (model != Mixer ==> s.thermo.pressure == from.value.thermo.pressure)
      && (model != Mixer && model != Splitter ==> s.massFlow == from.value.massFlow)
      && (model == Mixer ==>
            var other := MaterialInput(inputs, InletB);
            other.Success? && s.thermo.pressure == Min(from.value.thermo.pressure, other.value.thermo.pressure)
            && s.material == other.value.material && s.composition == other.value.composition)
  }

  lemma HeatedInherits(u: Unit, services: Services, inputs: seq<PortValue>, duty: real)
    requires HeatedBy(u, services, inputs, duty).Success? && u.model != Mixer
    ensures var out := HeatedBy(u, services, inputs, duty).value.outputs;
      forall i :: 0 <= i < |out| ==> Inherits(u.model, inputs, out[i])
  {
    hide FlashHP, MaterialInput, HeatedEnthalpy;
    var inlet := MaterialInput(inputs, Inlet).value;
    FlashHPMeaning(services.registry, inlet.thermo.package, inlet.composition,
      HeatedEnthalpy(inlet, duty).value, inlet.thermo.pressure);
  }

  lemma ExchangerInherits(u: Unit, services: Services, inputs: seq<PortValue>)
    requires u.model == HeatExchanger && EvaluateExchanger(u, services, inputs).Success?
    ensures var out := EvaluateExchanger(u, services, inputs).value.outputs;
      forall i :: 0 <= i < |out| ==> Inherits(u.model, inputs, out[i])
  {
    hide FlashHP, MaterialInput, HeatedEnthalpy, ExchangerDuty;
    var hot, cold := MaterialInput(inputs, HotIn).value, MaterialInput(inputs, ColdIn).value;
    var duty := ExchangerDuty(services, hot, cold, u.parameters[Effectiveness]).value;
    FlashHPMeaning(services.registry, hot.thermo.package, hot.composition, HeatedEnthalpy(hot, -duty).value,
      hot.thermo.pressure);
    FlashHPMeaning(services.registry, cold.thermo.package, cold.composition, HeatedEnthalpy(cold, duty).value,
      cold.thermo.pressure);
  }

  lemma MixerInherits(u: Unit, services: Services, inputs: seq<PortValue>)
    requires u.model == Mixer && EvaluateMixer(u, services, inputs).Success?
    ensures var out := EvaluateMixer(u, services, inputs).value.outputs;
      forall i :: 0 <= i < |out| ==> Inherits(u.model, inputs, out[i])
  {
    hide FlashHP, MaterialInput, MixedEnthalpy;
    var a, b := MaterialInput(inputs, InletA).value, MaterialInput(inputs, InletB).value;
    FlashHPMeaning(services.registry, a.thermo.package, a.composition, MixedEnthalpy(a, b).value,
      Min(a.thermo.pressure, b.thermo.pressure));
  }

  lemma OutletsInherit(u: Unit, services: Services, inputs: seq<PortValue>)
    requires u.model != Source && Evaluate(u, services, inputs).Success?
    ensures var out := Evaluate(u, services, inputs).value.outputs;
      forall i :: 0 <= i < |out| ==> Inherits(u.model, inputs, out[i])
  {
    hide FlashHP, FlashTP, MaterialInput, HeatedBy, EvaluateMixer, EvaluateExchanger;
    match u.model
    case Heater => HeatedInherits(u, services, inputs, u.parameters[HeatDuty]);
    case Mixer => MixerInherits(u, services, inputs);
    case HeatExchanger => ExchangerInherits(u, services, inputs);
    case Radiator =>
      var inlet := MaterialInput(inputs, Inlet).value;
      HeatedInherits(u, services, inputs, TargetDuty(services, inlet, u.parameters[OutletTemperature]).value);
    case _ =>
  }

  // ---- Over a whole run -----------------------------------------------------------------------

  predicate IsSource(c: Case, k: nat) {
    k < |c.units| && c.units[k].model == Source && MATERIAL_ID in c.units[k].metadata
      && Pressure in c.units[k].parameters
  }

  /** Some source puts in this material, pure, and some source has this pressure. */
  ghost predicate FromSources(c: Case, s: MaterialState) {
    && s.composition == [Component(s.material, 1.0)]
    && (exists k: nat :: IsSource(c, k) && c.units[k].metadata[MATERIAL_ID] == s.material)
    && (exists k: nat :: IsSource(c, k) && c.units[k].parameters[Pressure] == s.thermo.pressure)
  }

  ghost predicate AllFromSources(c: Case, values: seq<PortValue>) {
    forall i :: 0 <= i < |values| && values[i].MaterialValue? ==> FromSources(c, values[i].state)
  }

  lemma {:induction false} InputFromSources(c: Case, inputs: seq<PortValue>, port: PortId)
    requires AllFromSources(c, inputs) && MaterialInput(inputs, port).Success?
    ensures FromSources(c, MaterialInput(inputs, port).value)
    decreases |inputs|
  {
    hide FromSources;
    if !(inputs[0].MaterialValue? && inputs[0].port == port) {
      assert forall i :: 0 <= i < |inputs[1..]| ==> inputs[1..][i] == inputs[i + 1];
      InputFromSources(c, inputs[1..], port);
    }
  }

  lemma SourceIsSource(c: Case, u: Unit, services: Services, inputs: seq<PortValue>)
    requires u in c.units && u.model == Source && Evaluate(u, services, inputs).Success?
    ensures AllFromSources(c, Evaluate(u, services, inputs).value.outputs)
  {
    hide FlashTP;
    var k :| 0 <= k < |c.units| && c.units[k] == u;
    assert IsSource(c, k);
    var out := Evaluate(u, services, inputs).value.outputs;
    FlashTPMeaning(services.registry, services.materials[u.metadata[MATERIAL_ID]], out[0].state.composition,
      u.parameters[Temperature], u.parameters[Pressure]);
  }

  lemma EvaluationKeepsSources(c: Case, u: Unit, services: Services, inputs: seq<PortValue>)
    requires u in c.units && Evaluate(u, services, inputs).Success? && AllFromSources(c, inputs)
    ensures AllFromSources(c, Evaluate(u, services, inputs).value.outputs)
  {
    if u.model == Source {
      SourceIsSource(c, u, services, inputs);
    } else {
      OutletsInherit(u, services, inputs);
      var out := Evaluate(u, services, inputs).value.outputs;
      hide Evaluate, MaterialInput, AllFromSources;
      forall i | 0 <= i < |out| && out[i].MaterialValue? ensures FromSources(c, out[i].state) {
        assert Inherits(u.model, inputs, out[i]);
        InputFromSources(c, inputs, InletFor(u.model, out[i].port));
        if u.model == Mixer { InputFromSources(c, inputs, InletB); }
      }
      assert AllFromSources(c, out) by { OutputsFromSources(c, out); }
    }
  }

  lemma OutputsFromSources(c: Case, values: seq<PortValue>)
    requires forall i :: 0 <= i < |values| && values[i].MaterialValue? ==> FromSources(c, values[i].state)
    ensures AllFromSources(c, values)
  {
  }

  /** Every material stream of a run carries the pure material of one of the case's sources at the
      pressure of one of them: no unit invents, blends or relabels a material, or changes a
      pressure other than by taking the lower of two. */
  lemma {:induction false} RunStreamsFromSources(c: Case, services: Services, evaluations: seq<Evaluation>, n: nat)
    requires Ran(c, services, evaluations) && n < |evaluations|
    ensures AllFromSources(c, evaluations[n].outputs)
    decreases n
  {
    hide LeastOrder, Runnable, StepOutcome, Ran, Outlets, Evaluate, InputsAt, FeedOf, FromSources, OutputsOf, Tabled,
      Inlets;
    var early := OutputsOf(evaluations[..n]);
    RunTabled(c, services, evaluations, n);
    RanFacts(c, services, evaluations, n);
    TableGrows(c, services, evaluations, n);
    InputsReady(c, services, evaluations, n, early);
    var u := Definition(c.units, evaluations[n].unit);
    var inputs := InputsOf(c, early, u);
    forall i | 0 <= i < |inputs| && inputs[i].MaterialValue? ensures FromSources(c, inputs[i].state) {
      var key := SourceKeys(c, u.id)[i];
      var j, v := TableValue(c, evaluations, n, early, key);
      RunStreamsFromSources(c, services, evaluations, j);
    }
    EvaluationKeepsSources(c, u, services, inputs);
  }
}
