/** The pure-fluid flash of the reference property package and its registry. */
module Flash {
  import opened Wrappers
  import opened Properties

  datatype Component = Component(material: Id, fraction: real)

  datatype Request = Request(
    package: Id,
    composition: seq<Component>,
    temperature: Option<real>,
    enthalpy: Option<real>,
    pressure: Option<real>)

  datatype ThermoState = ThermoState(
    package: Id,
    composition: seq<Component>,
    temperature: real,
    pressure: real,
    enthalpy: real,
    validity: Validity)

  datatype Package = Package(id: Id, liquids: map<Id, Liquid>)

  type Registry = map<Id, Package>

  function Lookup(registry: Registry, id: Id): Result<Package, EvalError> {
    if id in registry then Success(registry[id]) else Failure(UnknownPackage)
  }

  /** Temperature and enthalpy fixed by a T-P or an H-P request. */
  function Specified(l: Liquid, request: Request): Result<(real, real), EvalError> {
    match request.temperature
    case Some(t) => Success((t, l.Enthalpy(t)))
    case None =>
      match request.enthalpy
      case Some(h) => var t :- l.TemperatureFromEnthalpy(h); Success((t, h))
      case None => Failure(NotAFlashRequest)
  }

  function FlashState(package: Package, request: Request): Result<ThermoState, EvalError> {
    if request.package != package.id then Failure(WrongPackage)
    else if |request.composition| != 1 || request.composition[0].fraction != 1.0 then Failure(NotPureFluid)
    else if request.composition[0].material !in package.liquids then Failure(UnknownMaterial)
    else if request.pressure.None? then Failure(NotAFlashRequest)
    else
      var liquid := package.liquids[request.composition[0].material];
      var (t, h) :- Specified(liquid, request);
      if !(liquid.hardMinimum <= t <= liquid.hardMaximum) then Failure(OutsideHardDomain)
      else
        var _ :- liquid.Cp(t);
        var validity := if liquid.evidenceMinimum <= t <= liquid.evidenceMaximum then Valid else Extrapolated;
        Success(ThermoState(package.id, request.composition, t, request.pressure.value, h, validity))
  }

  function FlashTP(registry: Registry, package: Id, composition: seq<Component>, t: real, p: real)
    : Result<ThermoState, EvalError>
  {
    var backend :- Lookup(registry, package);
    FlashState(backend, Request(package, composition, Some(t), None, Some(p)))
  }

  function FlashHP(registry: Registry, package: Id, composition: seq<Component>, h: real, p: real)
    : Result<ThermoState, EvalError>
  {
    var backend :- Lookup(registry, package);
    FlashState(backend, Request(package, composition, None, Some(h), Some(p)))
  }

  /** The liquid a successful flash was computed with. */
  function LiquidOf(registry: Registry, package: Id, composition: seq<Component>): Option<Liquid> {
    if package in registry && |composition| == 1 && composition[0].material in registry[package].liquids
    then Some(registry[package].liquids[composition[0].material])
    else None
  }

  /** A successful H-P flash keeps the requested enthalpy exactly; only the temperature is
      found by the inversion. */
  lemma FlashHPMeaning(registry: Registry, package: Id, composition: seq<Component>, h: real, p: real)
    requires FlashHP(registry, package, composition, h, p).Success?
    ensures var s := FlashHP(registry, package, composition, h, p).value;
            && s.package == package && s.enthalpy == h && s.pressure == p && s.composition == composition
            && LiquidOf(registry, package, composition).Some?
            && var l := LiquidOf(registry, package, composition).value;
            && l.TemperatureFromEnthalpy(h) == Success(s.temperature)
            && l.hardMinimum <= s.temperature <= l.hardMaximum
  {
  }

  /** A successful T-P flash keeps the requested temperature and reads the enthalpy off it. */
  lemma FlashTPMeaning(registry: Registry, package: Id, composition: seq<Component>, t: real, p: real)
    requires FlashTP(registry, package, composition, t, p).Success?
    ensures var s := FlashTP(registry, package, composition, t, p).value;
            && s.package == package && s.temperature == t && s.pressure == p && s.composition == composition
            && LiquidOf(registry, package, composition).Some?
            && var l := LiquidOf(registry, package, composition).value;
            && s.enthalpy == l.Enthalpy(t)
            && l.hardMinimum <= t <= l.hardMaximum
  {
  }

  /** The package is registered under its own identity, and the composition is one of its liquids,
      pure. */
  predicate KnownFluid(registry: Registry, package: Id, composition: seq<Component>) {
    && package in registry && registry[package].id == package
    && |composition| == 1 && composition[0].fraction == 1.0
    && composition[0].material in registry[package].liquids
  }

  /** The temperature is in the hard range and the heat capacity there positive. */
  predicate Allowed(l: Liquid, t: real) {
    l.hardMinimum <= t <= l.hardMaximum && l.HeatCapacity(t) > 0.0
  }

  /** A T-P flash succeeds exactly for a known fluid at an allowed temperature; the answer is valid
      exactly within the evidence range, and extrapolated outside. */
  lemma FlashTPSucceedsIff(registry: Registry, package: Id, composition: seq<Component>, t: real, p: real)
    ensures var r := FlashTP(registry, package, composition, t, p);
      && (r.Success? <==>
            && KnownFluid(registry, package, composition)
            && Allowed(LiquidOf(registry, package, composition).value, t))
      && (r.Success? ==>
            var l := LiquidOf(registry, package, composition).value;
            r.value.validity == if l.evidenceMinimum <= t <= l.evidenceMaximum then Valid else Extrapolated)
  {
    hide Liquid.HeatCapacity, Liquid.Enthalpy;
  }

  /** An H-P flash succeeds exactly for a known fluid whose inversion finds an allowed temperature. */
  lemma FlashHPSucceedsIff(registry: Registry, package: Id, composition: seq<Component>, h: real, p: real)
    ensures var r := FlashHP(registry, package, composition, h, p);
      && (r.Success? <==>
            && KnownFluid(registry, package, composition)
            && var l := LiquidOf(registry, package, composition).value;
               l.TemperatureFromEnthalpy(h).Success? && Allowed(l, l.TemperatureFromEnthalpy(h).value))
      && (r.Success? ==>
            var l, t := LiquidOf(registry, package, composition).value, r.value.temperature;
            r.value.validity == if l.evidenceMinimum <= t <= l.evidenceMaximum then Valid else Extrapolated)
  {
    hide Liquid.HeatCapacity, Liquid.Enthalpy, Liquid.TemperatureFromEnthalpy;
  }
}
