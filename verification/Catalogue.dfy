/** Ports, model descriptors and the reference catalogue. */
module Catalogue {
  import opened Wrappers
  import opened Models

  datatype Direction = Input | Output
  datatype Kind = Material | Energy

  datatype Port = Port(id: PortId, kind: Kind, direction: Direction, required: bool)

  datatype Descriptor = Descriptor(
    ports: seq<Port>,
    requiredParameters: seq<Parameter>,
    requiredMetadata: seq<string>)

  type Catalog = map<Model, Descriptor>

  predicate Compatible(source: Port, target: Port) {
    source.direction == Output && target.direction == Input && source.kind == target.kind
  }

  /** The first port with the identifier. */
  function FindPort(ports: seq<Port>, id: PortId): (r: Option<Port>)
    ensures r.Some? ==> r.value in ports && r.value.id == id
    ensures r.None? ==> forall p :: p in ports ==> p.id != id
  {
    if ports == [] then None
    else if ports[0].id == id then Some(ports[0])
    else FindPort(ports[1..], id)
  }

  function MaterialIn(id: PortId): Port { Port(id, Material, Input, true) }
  function MaterialOut(id: PortId): Port { Port(id, Material, Output, true) }

  const ENERGY_OUT := Port(Duty, Energy, Output, false)

  /** The descriptor registered for each of the seven reference models. */
  function ReferenceDescriptor(model: Model): Descriptor
    requires !model.OtherModel?
  {
    match model
    case Source => Descriptor([MaterialOut(Outlet)], [MassFlow, Temperature, Pressure], [MATERIAL_ID])
    case Sink => Descriptor([MaterialIn(Inlet)], [], [])
    case Heater => Descriptor([MaterialIn(Inlet), MaterialOut(Outlet), ENERGY_OUT], [HeatDuty], [])
    case Mixer => Descriptor([MaterialIn(InletA), MaterialIn(InletB), MaterialOut(Outlet)], [], [])
    case Splitter =>
      Descriptor([MaterialIn(Inlet), MaterialOut(OutletA), MaterialOut(OutletB)], [SplitFraction], [])
    case HeatExchanger =>
      Descriptor([MaterialIn(HotIn), MaterialOut(HotOut), MaterialIn(ColdIn), MaterialOut(ColdOut)],
                 [Effectiveness], [])
    case Radiator =>
      Descriptor([MaterialIn(Inlet), MaterialOut(Outlet), ENERGY_OUT], [OutletTemperature, Emissivity], [])
  }

  const REFERENCE_MODELS: set<Model> := {Source, Sink, Heater, Mixer, Splitter, HeatExchanger, Radiator}

  function ReferenceCatalog(): (c: Catalog)
    ensures forall m :: m in c <==> !m.OtherModel?
  {
    map m | m in REFERENCE_MODELS :: ReferenceDescriptor(m)
  }
}
