/** Acyclic sequential evaluation of a compiled flowsheet and the statuses of its result. */
module Runner {
  import opened Wrappers
  import opened Numerics
  import opened Properties
  import opened Flash
  import opened Models
  import opened Catalogue
  import opened Balances
  import opened Digraph
  import opened Compiler

  datatype Convergence = Converged | RunFailed
  datatype Closure = Passed | Open | NotChecked

  datatype Balance = Balance(residual: real, tolerance: real, status: Closure)

  datatype RunResult = RunResult(
    evaluations: seq<Evaluation>,
    balances: Option<(Balance, Balance)>,
    convergence: Convergence,
    closure: Closure,
    physicalValidity: Validity,
    correlationValidity: Validity)

  type Outputs = map<Key, PortValue>

  function Relabelled(v: PortValue, port: PortId): PortValue {
    match v
    case MaterialValue(_, state) => MaterialValue(port, state)
    case EnergyValue(_, duty) => EnergyValue(port, duty)
  }

  /** `connections_by_target`: the last connection with the target, when there is one. */
  function FeedOf(connections: seq<Connection>, key: Key): (r: Option<Connection>)
    ensures r.Some? ==> r.value in connections && TargetKey(r.value) == key
    ensures r.None? ==> !Feeds(connections, key)
  {
    if connections == [] then None
    else
      var n := |connections| - 1;
      if TargetKey(connections[n]) == key then Some(connections[n])
      else
        var r := FeedOf(connections[..n], key);
        assert r.None? ==> forall i :: 0 <= i < n ==> TargetKey(connections[i]) == TargetKey(connections[..n][i]);
        r
  }

  /** The port values gathered for a unit, in port order. */
  function InputsAt(c: Case, outputs: Outputs, unit: Id, ports: seq<Port>): seq<PortValue> {
    if ports == [] then []
    else
      var n := |ports| - 1;
      var feed := FeedOf(c.connections, (unit, ports[n].id));
      InputsAt(c, outputs, unit, ports[..n])
      + (if feed.Some? && SourceKey(feed.value) in outputs
         then [Relabelled(outputs[SourceKey(feed.value)], ports[n].id)] else [])
  }

  function InputsOf(c: Case, outputs: Outputs, u: Unit): seq<PortValue>
    requires !u.model.OtherModel?
  {
    InputsAt(c, outputs, u.id, ReferenceDescriptor(u.model).ports)
  }

  /** The outputs table after some values of one unit are stored. */
  function Stored(outputs: Outputs, unit: Id, values: seq<PortValue>): Outputs {
    if values == [] then outputs
    else
      var n := |values| - 1;
      Stored(outputs, unit, values[..n])[(unit, values[n].port) := values[n]]
  }

  /** The outputs table after some evaluations. */
  function OutputsOf(evaluations: seq<Evaluation>): Outputs {
    if evaluations == [] then map[]
    else
      var n := |evaluations| - 1;
      Stored(OutputsOf(evaluations[..n]), evaluations[n].unit, evaluations[n].outputs)
  }

  function WorstValidity(evaluations: seq<Evaluation>): Validity {
    if evaluations == [] then Unknown
    else
      var n := |evaluations| - 1;
      Worse(WorstValidity(evaluations[..n]), evaluations[n].validity)
  }

  /** Source outflow, in evaluation order. */
  function SourceTotal(m: Measure, units: seq<Unit>, evaluations: seq<Evaluation>): real
    requires forall e :: e in evaluations ==> Defined(units, e.unit)
  {
    if evaluations == [] then 0.0
    else
      var n := |evaluations| - 1;
      SourceTotal(m, units, evaluations[..n])
      + (if Definition(units, evaluations[n].unit).model == Source
         then MaterialFlow(m, evaluations[n].outputs) else 0.0)
  }

  /** What the sinks receive: the value at the source of each sink's feed. */
  function SinkTotal(m: Measure, c: Case, outputs: Outputs, evaluations: seq<Evaluation>): real
    requires forall e :: e in evaluations ==> Defined(c.units, e.unit)
  {
    if evaluations == [] then 0.0
    else
      var n := |evaluations| - 1;
      SinkTotal(m, c, outputs, evaluations[..n])
      + (if Definition(c.units, evaluations[n].unit).model == Sink
         then MaterialFlow(m, InputsAt(c, outputs, evaluations[n].unit, [MaterialIn(Inlet)])) else 0.0)
  }

  function AddedTotal(m: Measure, evaluations: seq<Evaluation>): real {
    if evaluations == [] then 0.0
    else
      var n := |evaluations| - 1;
      AddedTotal(m, evaluations[..n]) + Added(m, evaluations[n].outputs)
  }

  // ---- What a run is --------------------------------------------------------------------

  /** The flowsheet's execution order under the reference catalogue. */
  function RunOrder(c: Case): seq<Id> {
    LeastOrder(FlowGraph(ReferenceCatalog(), c.units, c.connections), UnitIds(c.units))
  }

  ghost predicate Runnable(c: Case) {
    ValidCase(ReferenceCatalog(), c)
  }

  ghost predicate KnownUnit(c: Case, id: Id) {
    Defined(c.units, id) && !Definition(c.units, id).model.OtherModel?
  }

  /** The unit's evaluation from the values produced before it. */
  function StepOutcome(c: Case, services: Services, before: seq<Evaluation>, id: Id): Outcome
    requires KnownUnit(c, id)
  {
    var u := Definition(c.units, id);
    Evaluate(u, services, InputsOf(c, OutputsOf(before), u))
  }

  /** `evaluations` are the outcomes of the first units of the order, each from the values
      produced before it. */
  ghost predicate SolvedPrefix(c: Case, services: Services, order: seq<Id>, evaluations: seq<Evaluation>) {
    && |evaluations| <= |order|
    && forall i :: 0 <= i < |evaluations| ==>
         KnownUnit(c, order[i]) && StepOutcome(c, services, evaluations[..i], order[i]) == Success(evaluations[i])
  }

  lemma EvaluatedUnit(u: Unit, services: Services, inputs: seq<PortValue>)
    requires Evaluate(u, services, inputs).Success?
    ensures Evaluate(u, services, inputs).value.unit == u.id
  {
    hide FlashTP, FlashHP, MaterialInput, HeatedEnthalpy, MixedEnthalpy, ExchangerDuty, TargetDuty, Divide, Flux;
  }

  lemma SolvedUnits(c: Case, services: Services, order: seq<Id>, evaluations: seq<Evaluation>)
    requires SolvedPrefix(c, services, order, evaluations)
    ensures forall i :: 0 <= i < |evaluations| ==> evaluations[i].unit == order[i] && KnownUnit(c, order[i])
    ensures forall e :: e in evaluations ==> Defined(c.units, e.unit)
  {
    hide Evaluate, InputsOf, OutputsOf;
    forall i | 0 <= i < |evaluations| ensures evaluations[i].unit == order[i] {
      EvaluatedUnit(Definition(c.units, order[i]), services,
                    InputsOf(c, OutputsOf(evaluations[..i]), Definition(c.units, order[i])));
    }
  }

  function CloseBalance(residual: real, tolerance: real): Balance {
    Balance(residual, tolerance, if Abs(residual) <= tolerance then Passed else Open)
  }

  const CLOSURE_TOLERANCE: real := 0.00000001

  function MassBalance(source: real, sink: real): Balance {
    CloseBalance(source - sink, Max(Max(source, sink), 1.0) * CLOSURE_TOLERANCE)
  }

  function EnergyBalance(source: real, duty: real, sink: real): Balance {
    CloseBalance(source + duty - sink,
                 Max(Max(Abs(source), Abs(duty)), Max(Abs(sink), 1.0)) * CLOSURE_TOLERANCE)
  }

  /** The balances reported for a complete evaluation. */
  function ReportedBalances(c: Case, evaluations: seq<Evaluation>): (Balance, Balance)
    requires forall e :: e in evaluations ==> Defined(c.units, e.unit)
  {
    var outputs := OutputsOf(evaluations);
    (MassBalance(SourceTotal(Mass, c.units, evaluations), SinkTotal(Mass, c, outputs, evaluations)),
     EnergyBalance(SourceTotal(Heat, c.units, evaluations), AddedTotal(Heat, evaluations),
                   SinkTotal(Heat, c, outputs, evaluations)))
  }

  // ---- The run --------------------------------------------------------------------------

  method Gather(c: Case, outputs: Outputs, u: Unit) returns (inputs: seq<PortValue>)
    requires !u.model.OtherModel?
    ensures inputs == InputsOf(c, outputs, u)
  {
    inputs := [];
    var ports := ReferenceDescriptor(u.model).ports;
    for i := 0 to |ports|
      invariant inputs == InputsAt(c, outputs, u.id, ports[..i])
    {
      assert ports[..i + 1][..i] == ports[..i];
      var connection := FeedOf(c.connections, (u.id, ports[i].id));
      if connection.Some? && SourceKey(connection.value) in outputs {
        inputs := inputs + [Relabelled(outputs[SourceKey(connection.value)], ports[i].id)];
      }
    }
    assert ports[..|ports|] == ports;
  }

  method Store(outputs0: Outputs, unit: Id, values: seq<PortValue>) returns (outputs: Outputs)
    ensures outputs == Stored(outputs0, unit, values)
  {
    outputs := outputs0;
    for i := 0 to |values|
      invariant outputs == Stored(outputs0, unit, values[..i])
    {
      assert values[..i + 1][..i] == values[..i];
      outputs := outputs[(unit, values[i].port) := values[i]];
    }
    assert values[..|values|] == values;
  }

  method AddUp(c: Case, outputs: Outputs, evaluations: seq<Evaluation>)
    returns (sourceFlow: real, sinkFlow: real, sourceHeat: real, sinkHeat: real, duty: real)
    requires forall e :: e in evaluations ==> Defined(c.units, e.unit)
    ensures sourceFlow == SourceTotal(Mass, c.units, evaluations)
      && sinkFlow == SinkTotal(Mass, c, outputs, evaluations)
    ensures sourceHeat == SourceTotal(Heat, c.units, evaluations)
      && sinkHeat == SinkTotal(Heat, c, outputs, evaluations)
    ensures duty == AddedTotal(Heat, evaluations)
  {
    hide MaterialFlow, DutyFlow, InputsAt, Definition;
    sourceFlow, sinkFlow, sourceHeat, sinkHeat, duty := 0.0, 0.0, 0.0, 0.0, 0.0;
    for i := 0 to |evaluations|
      invariant sourceFlow == SourceTotal(Mass, c.units, evaluations[..i])
      invariant sinkFlow == SinkTotal(Mass, c, outputs, evaluations[..i])
      invariant sourceHeat == SourceTotal(Heat, c.units, evaluations[..i])
      invariant sinkHeat == SinkTotal(Heat, c, outputs, evaluations[..i])
      invariant duty == AddedTotal(Heat, evaluations[..i])
    {
      var e := evaluations[i];
      assert evaluations[..i + 1][..i] == evaluations[..i];
      var u := Definition(c.units, e.unit);
      if u.model == Source {
        sourceFlow := sourceFlow + MaterialFlow(Mass, e.outputs);
        sourceHeat := sourceHeat + MaterialFlow(Heat, e.outputs);
      } else if u.model == Sink {
        var received := InputsAt(c, outputs, e.unit, [MaterialIn(Inlet)]);
        sinkFlow := sinkFlow + MaterialFlow(Mass, received);
        sinkHeat := sinkHeat + MaterialFlow(Heat, received);
      }
      duty := duty + DutyFlow(e.outputs);
    }
    assert evaluations[..|evaluations|] == evaluations;
  }

  /** The acyclic run engine. */
  method Run(c: Case, registry: Registry) returns (result: RunResult)
    requires WellFormed(c)
    ensures !Runnable(c) ==> result == RunResult([], None, RunFailed, NotChecked, Invalid, Unknown)
    ensures Runnable(c) ==>
      && SolvedPrefix(c, Services(registry, c.materials), RunOrder(c), result.evaluations)
      && result.correlationValidity == WorstValidity(result.evaluations)
    ensures result.convergence == Converged <==> Runnable(c) && |result.evaluations| == |RunOrder(c)|
    ensures Runnable(c) && result.convergence == RunFailed ==>
      && KnownUnit(c, RunOrder(c)[|result.evaluations|])
      && StepOutcome(c, Services(registry, c.materials), result.evaluations,
                     RunOrder(c)[|result.evaluations|]).Failure?
      && result.balances == None && result.closure == NotChecked && result.physicalValidity == Invalid
    ensures result.convergence == Converged ==>
      && (forall e :: e in result.evaluations ==> Defined(c.units, e.unit))
      && var (mass, energy) := ReportedBalances(c, result.evaluations);
      && result.balances == Some((mass, energy))
      && (result.closure == if mass.status == Passed && energy.status == Passed then Passed else Open)
      && (result.physicalValidity == if result.correlationValidity == Invalid then Invalid else Valid)
  {
    var report := Compile(ReferenceCatalog(), c);
    if !report.valid {
      return RunResult([], None, RunFailed, NotChecked, Invalid, Unknown);
    }
    var services := Services(registry, c.materials);
    var outputs: Outputs := map[];
    var evaluations: seq<Evaluation> := [];
    var worst := Unknown;
    for i := 0 to |report.order|
      invariant |evaluations| == i
      invariant SolvedPrefix(c, services, report.order, evaluations)
      invariant outputs == OutputsOf(evaluations)
      invariant worst == WorstValidity(evaluations)
    {
      OrderedIsKnown(c, report.order, i);
      var definition := Definition(c.units, report.order[i]);
      var inputs := Gather(c, outputs, definition);
      var outcome := Evaluate(definition, services, inputs);
      if outcome.Failure? {
        return RunResult(evaluations, None, RunFailed, NotChecked, Invalid, worst);
      }
      var evaluation := outcome.value;
      EvaluatedUnit(definition, services, inputs);
      ExtendSolved(c, services, report.order, evaluations, evaluation);
      outputs := Store(outputs, definition.id, evaluation.outputs);
      worst := Worse(worst, evaluation.validity);
      evaluations := evaluations + [evaluation];
    }
    SolvedUnits(c, services, report.order, evaluations);
    var sourceFlow, sinkFlow, sourceHeat, sinkHeat, duty := AddUp(c, outputs, evaluations);
    var mass := MassBalance(sourceFlow, sinkFlow);
    var energy := EnergyBalance(sourceHeat, duty, sinkHeat);
    var closure := if mass.status == Passed && energy.status == Passed then Passed else Open;
    result := RunResult(evaluations, Some((mass, energy)), Converged, closure,
                        if worst == Invalid then Invalid else Valid, worst);
  }

  lemma OrderedIsKnown(c: Case, order: seq<Id>, i: nat)
    requires Runnable(c) && Permutes(order, UnitIds(c.units)) && i < |order|
    ensures KnownUnit(c, order[i])
  {
    assert order[i] in UnitIds(c.units);
    var k :| 0 <= k < |c.units| && c.units[k].id == order[i];
    var u := Definition(c.units, order[i]);
    var l :| 0 <= l < |c.units| && c.units[l] == u;
    assert UnitComplete(ReferenceCatalog(), c.units[l]);
  }

  lemma ExtendSolved(c: Case, services: Services, order: seq<Id>, evaluations: seq<Evaluation>, e: Evaluation)
    requires SolvedPrefix(c, services, order, evaluations) && |evaluations| < |order|
    requires KnownUnit(c, order[|evaluations|])
    requires StepOutcome(c, services, evaluations, order[|evaluations|]) == Success(e)
    ensures SolvedPrefix(c, services, order, evaluations + [e])
    ensures (evaluations + [e])[..|evaluations|] == evaluations
  {
    hide Evaluate, InputsOf, OutputsOf, StepOutcome;
    var all := evaluations + [e];
    forall i | 0 <= i < |all|
      ensures KnownUnit(c, order[i]) && StepOutcome(c, services, all[..i], order[i]) == Success(all[i])
    {
      if i < |evaluations| {
        assert all[..i] == evaluations[..i];
      } else {
        assert all[..i] == evaluations;
      }
    }
  }
}
