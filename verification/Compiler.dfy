/** Flowsheet compilation: the checks, the recycle groups and the execution order. */
module Compiler {
  import opened Wrappers
  import opened Properties
  import opened Models
  import opened Catalogue
  import opened Digraph
  import opened Components

  datatype Connection = Connection(id: Id, source: Id, sourcePort: PortId, target: Id, targetPort: PortId)

  /** `materials` names each material's property package. */
  datatype Case = Case(materials: map<Id, Id>, units: seq<Unit>, connections: seq<Connection>)

  /** Unit and connection identifiers are unique: the case's own constructor rejects others. */
  predicate WellFormed(c: Case) {
    && (forall i, j :: 0 <= i < j < |c.units| ==> c.units[i].id != c.units[j].id)
    && (forall i, j :: 0 <= i < j < |c.connections| ==> c.connections[i].id != c.connections[j].id)
  }

  datatype Code =
    | UnknownModel | MissingParameter | MissingMetadata
    | UnknownUnit | UnknownPort | IncompatiblePort
    | MaterialFanout | MultipleFeeds | UnconnectedInput | RecycleNotSupported

  /** Every diagnostic of the compiler has severity "error". */
  datatype Diagnostic = Diagnostic(code: Code, subject: Option<Id>)

  datatype Report = Report(
    valid: bool,
    degreesOfFreedom: nat,
    diagnostics: seq<Diagnostic>,
    order: seq<Id>,
    recycleGroups: seq<seq<Id>>)

  type Key = (Id, PortId)

  function SourceKey(c: Connection): Key { (c.source, c.sourcePort) }
  function TargetKey(c: Connection): Key { (c.target, c.targetPort) }

  // ---- What a valid case is -----------------------------------------------------------

  /** The unit's model is registered and all it requires is present. */
  predicate UnitComplete(catalog: Catalog, u: Unit) {
    && u.model in catalog
    && (forall p :: p in catalog[u.model].requiredParameters ==> p in u.parameters)
    && (forall m :: m in catalog[u.model].requiredMetadata ==> m in u.metadata)
  }

  predicate Defined(units: seq<Unit>, id: Id) {
    exists i :: 0 <= i < |units| && units[i].id == id
  }

  function Definition(units: seq<Unit>, id: Id): (u: Unit)
    requires Defined(units, id)
    ensures u in units && u.id == id
  {
    if units[0].id == id then units[0] else Definition(units[1..], id)
  }

  function PortAt(catalog: Catalog, units: seq<Unit>, key: Key): Option<Port> {
    if Defined(units, key.0) && Definition(units, key.0).model in catalog
    then FindPort(catalog[Definition(units, key.0).model].ports, key.1)
    else None
  }

  /** The connection joins known, compatible ports of known units. */
  predicate Wired(catalog: Catalog, units: seq<Unit>, c: Connection) {
    var source, target := PortAt(catalog, units, SourceKey(c)), PortAt(catalog, units, TargetKey(c));
    source.Some? && target.Some? && Compatible(source.value, target.value)
  }

  predicate Feeds(connections: seq<Connection>, key: Key) {
    exists i :: 0 <= i < |connections| && TargetKey(connections[i]) == key
  }

  /** Required inputs of one unit that nothing feeds. */
  predicate InputsFed(catalog: Catalog, u: Unit, connections: seq<Connection>) {
    u.model in catalog ==>
      forall p :: p in catalog[u.model].ports && p.required && p.direction == Input ==> Feeds(connections, (u.id, p.id))
  }

  function UnitIds(units: seq<Unit>): set<Id> {
    set i | 0 <= i < |units| :: units[i].id
  }

  /** The graph of the accepted connections. */
  function FlowGraph(catalog: Catalog, units: seq<Unit>, connections: seq<Connection>): Graph {
    Graph(UnitIds(units),
          set i | 0 <= i < |connections| && Wired(catalog, units, connections[i])
              :: (connections[i].source, connections[i].target))
  }

  /** No outlet is used twice and no inlet fed twice. */
  predicate SingleUse(connections: seq<Connection>) {
    forall i, j :: 0 <= i < j < |connections| ==>
      SourceKey(connections[i]) != SourceKey(connections[j]) && TargetKey(connections[i]) != TargetKey(connections[j])
  }

  predicate AllWired(catalog: Catalog, units: seq<Unit>, connections: seq<Connection>) {
    forall i :: 0 <= i < |connections| ==> Wired(catalog, units, connections[i])
  }

  ghost predicate ValidCase(catalog: Catalog, c: Case) {
    && (forall i :: 0 <= i < |c.units| ==> UnitComplete(catalog, c.units[i]))
    && AllWired(catalog, c.units, c.connections)
    && SingleUse(c.connections)
    && (forall i :: 0 <= i < |c.units| ==> InputsFed(catalog, c.units[i], c.connections))
    && !Cyclic(FlowGraph(catalog, c.units, c.connections))
  }

  /** In a valid case each required input has exactly one feed, whose source feeds nothing else and
      is a port compatible with it. */
  lemma OneFeedEach(catalog: Catalog, c: Case, u: Unit, p: Port) returns (i: nat)
    requires ValidCase(catalog, c) && u in c.units && u.model in catalog
    requires p in catalog[u.model].ports && p.required && p.direction == Input
    ensures i < |c.connections| && TargetKey(c.connections[i]) == (u.id, p.id)
    ensures forall j :: 0 <= j < |c.connections| && j != i ==>
      TargetKey(c.connections[j]) != (u.id, p.id) && SourceKey(c.connections[j]) != SourceKey(c.connections[i])
    ensures Wired(catalog, c.units, c.connections[i])
  {
    hide Cyclic, Wired;
    var k :| 0 <= k < |c.units| && c.units[k] == u;
    assert InputsFed(catalog, c.units[k], c.connections);
    assert Feeds(c.connections, (u.id, p.id));
    i :| 0 <= i < |c.connections| && TargetKey(c.connections[i]) == (u.id, p.id);
  }

  // ---- Counting what is missing -------------------------------------------------------

  function Absent<T(==)>(names: seq<T>, present: set<T>): nat {
    if names == [] then 0
    else Absent(names[..|names| - 1], present) + (if names[|names| - 1] in present then 0 else 1)
  }

  function MissingValues(catalog: Catalog, units: seq<Unit>): nat {
    if units == [] then 0
    else
      var u := units[|units| - 1];
      MissingValues(catalog, units[..|units| - 1])
      + (if u.model in catalog
         then Absent(catalog[u.model].requiredParameters, u.parameters.Keys)
              + Absent(catalog[u.model].requiredMetadata, u.metadata.Keys)
         else 0)
  }

  lemma {:induction false} AbsentZero<T>(names: seq<T>, present: set<T>)
    ensures Absent(names, present) == 0 <==> forall n :: n in names ==> n in present
  {
    if names != [] {
      var front, last := names[..|names| - 1], names[|names| - 1];
      AbsentZero(front, present);
      assert names == front + [last];
    }
  }

  /** What is reported of a unit by itself. */
  predicate UnitDefect(catalog: Catalog, u: Unit, d: Diagnostic) {
    && d.subject == Some(u.id)
    && match d.code
       case UnknownModel => u.model !in catalog
       case MissingParameter => u.model in catalog && !(Names(catalog[u.model].requiredParameters) <= u.parameters.Keys)
       case MissingMetadata => u.model in catalog && !(Names(catalog[u.model].requiredMetadata) <= u.metadata.Keys)
       case _ => false
  }

  function Names<T>(names: seq<T>): set<T> {
    set n | n in names
  }

  predicate SomeUnitDefect(catalog: Catalog, units: seq<Unit>, n: nat, d: Diagnostic)
    requires n <= |units|
  {
    exists i :: 0 <= i < n && UnitDefect(catalog, units[i], d)
  }

  lemma NextUnitDefect(catalog: Catalog, units: seq<Unit>, n: nat, d: Diagnostic)
    requires n < |units|
    ensures SomeUnitDefect(catalog, units, n + 1, d) <==>
      SomeUnitDefect(catalog, units, n, d) || UnitDefect(catalog, units[n], d)
  {
    hide UnitDefect;
  }

  method CheckUnits(catalog: Catalog, units: seq<Unit>) returns (diagnostics: seq<Diagnostic>, missing: nat)
    ensures diagnostics == [] <==> forall i :: 0 <= i < |units| ==> UnitComplete(catalog, units[i])
    ensures missing == MissingValues(catalog, units)
    ensures diagnostics == [] ==> missing == 0
    ensures forall d :: d in diagnostics <==> SomeUnitDefect(catalog, units, |units|, d)
  {
    hide SomeUnitDefect;
    NoUnitDefect(catalog, units);
    diagnostics, missing := [], 0;
    for i := 0 to |units|
      invariant forall d :: d in diagnostics <==> SomeUnitDefect(catalog, units, i, d)
      invariant diagnostics == [] <==> forall k :: 0 <= k < i ==> UnitComplete(catalog, units[k])
      invariant missing == MissingValues(catalog, units[..i])
      invariant diagnostics == [] ==> missing == 0
    {
      var u := units[i];
      assert units[..i + 1][..i] == units[..i];
      forall d { NextUnitDefect(catalog, units, i, d); }
      var found, lacking := CheckUnit(catalog, u);
      diagnostics := diagnostics + found;
      missing := missing + lacking;
    }
    assert units[..|units|] == units;
  }

  lemma NoUnitDefect(catalog: Catalog, units: seq<Unit>)
    ensures forall d :: !SomeUnitDefect(catalog, units, 0, d)
  {
  }

  method CheckUnit(catalog: Catalog, u: Unit) returns (diagnostics: seq<Diagnostic>, missing: nat)
    ensures forall d :: d in diagnostics <==> UnitDefect(catalog, u, d)
    ensures diagnostics == [] <==> UnitComplete(catalog, u)
    ensures missing == MissingValues(catalog, [u])
    ensures diagnostics == [] ==> missing == 0
  {
    assert [u][..0] == [];
    if u.model !in catalog { return [Diagnostic(UnknownModel, Some(u.id))], 0; }
    var descriptor := catalog[u.model];
    var d1, m1 := CheckNames(descriptor.requiredParameters, u.parameters.Keys,
      Diagnostic(MissingParameter, Some(u.id)));
    var d2, m2 := CheckNames(descriptor.requiredMetadata, u.metadata.Keys, Diagnostic(MissingMetadata, Some(u.id)));
    return d1 + d2, m1 + m2;
  }

  method CheckNames<T(==)>(names: seq<T>, present: set<T>, diagnostic: Diagnostic)
    returns (diagnostics: seq<Diagnostic>, missing: nat)
    ensures missing == Absent(names, present) == |diagnostics|
    ensures diagnostics == [] <==> forall n :: n in names ==> n in present
    ensures forall d :: d in diagnostics <==> d == diagnostic && !(Names(names) <= present)
  {
    diagnostics, missing := [], 0;
    for i := 0 to |names|
      invariant missing == Absent(names[..i], present) == |diagnostics|
      invariant forall d :: d in diagnostics ==> d == diagnostic
    {
      assert names[..i + 1][..i] == names[..i];
      if names[i] !in present {
        missing := missing + 1;
        diagnostics := diagnostics + [diagnostic];
      }
    }
    assert names[..|names|] == names;
    AbsentZero(names, present);
    assert diagnostics != [] ==> diagnostics[0] in diagnostics;
    assert Names(names) <= present <==> forall n :: n in names ==> n in present;
  }

  // ---- Connections --------------------------------------------------------------------

  datatype Side = SourceSide | TargetSide

  function KeyOn(side: Side, c: Connection): Key {
    match side case SourceSide => SourceKey(c) case TargetSide => TargetKey(c)
  }

  /** How many accepted connections use the port. */
  function Uses(catalog: Catalog, units: seq<Unit>, connections: seq<Connection>, side: Side, key: Key): nat {
    if connections == [] then 0
    else
      var last := connections[|connections| - 1];
      Uses(catalog, units, connections[..|connections| - 1], side, key)
      + (if Wired(catalog, units, last) && KeyOn(side, last) == key then 1 else 0)
  }

  predicate Keyed(connections: seq<Connection>, side: Side, key: Key) {
    exists i :: 0 <= i < |connections| && KeyOn(side, connections[i]) == key
  }

  lemma KeyedStep(connections: seq<Connection>, i: nat, side: Side, key: Key)
    requires i < |connections|
    ensures Keyed(connections[..i + 1], side, key) <==>
      Keyed(connections[..i], side, key) || KeyOn(side, connections[i]) == key
  {
    var before, now := connections[..i], connections[..i + 1];
    assert now[i] == connections[i] && forall k :: 0 <= k < i ==> before[k] == now[k];
  }

  lemma {:induction false} UsedIffKeyed(catalog: Catalog, units: seq<Unit>, connections: seq<Connection>,
                                        side: Side, key: Key)
    requires AllWired(catalog, units, connections)
    ensures Uses(catalog, units, connections, side, key) > 0 <==> Keyed(connections, side, key)
  {
    hide Wired;
    if connections != [] {
      var n := |connections| - 1;
      UsedIffKeyed(catalog, units, connections[..n], side, key);
      KeyedStep(connections, n, side, key);
      assert connections[..n + 1] == connections;
      assert Wired(catalog, units, connections[n]);
    }
  }

  type Counter = map<Key, nat>

  function Got(counter: Counter, key: Key): nat {
    if key in counter then counter[key] else 0
  }

  ghost predicate Counts(catalog: Catalog, units: seq<Unit>, connections: seq<Connection>, side: Side,
      counter: Counter) {
    forall key :: Got(counter, key) == Uses(catalog, units, connections, side, key)
  }

  lemma CountOneMore(catalog: Catalog, units: seq<Unit>, connections: seq<Connection>, i: nat, side: Side,
      counter: Counter)
    requires i < |connections| && Counts(catalog, units, connections[..i], side, counter)
    ensures Wired(catalog, units, connections[i]) ==>
      var key := KeyOn(side, connections[i]);
      Counts(catalog, units, connections[..i + 1], side, counter[key := Got(counter, key) + 1])
    ensures !Wired(catalog, units, connections[i]) ==> Counts(catalog, units, connections[..i + 1], side, counter)
  {
    hide Wired;
    var c := connections[i];
    forall key ensures Uses(catalog, units, connections[..i + 1], side, key)
                    == Uses(catalog, units, connections[..i], side, key)
                     + (if Wired(catalog, units, c) && KeyOn(side, c) == key then 1 else 0)
    {
      assert connections[..i + 1][..i] == connections[..i];
    }
    if Wired(catalog, units, c) {
      var more := counter[KeyOn(side, c) := Got(counter, KeyOn(side, c)) + 1];
      forall key ensures Got(more, key) == Uses(catalog, units, connections[..i + 1], side, key) {
        assert Got(counter, key) == Uses(catalog, units, connections[..i], side, key);
      }
    } else {
      forall key ensures Got(counter, key) == Uses(catalog, units, connections[..i + 1], side, key) {
        assert Got(counter, key) == Uses(catalog, units, connections[..i], side, key);
      }
    }
  }

  lemma SingleUseExtends(catalog: Catalog, units: seq<Unit>, connections: seq<Connection>, i: nat)
    requires i < |connections| && AllWired(catalog, units, connections[..i + 1])
    ensures SingleUse(connections[..i + 1]) <==>
      && SingleUse(connections[..i])
      && Uses(catalog, units, connections[..i], SourceSide, SourceKey(connections[i])) == 0
      && Uses(catalog, units, connections[..i], TargetSide, TargetKey(connections[i])) == 0
  {
    hide Wired;
    var before, now, c := connections[..i], connections[..i + 1], connections[i];
    assert now[i] == c && forall k :: 0 <= k < i ==> before[k] == now[k];
    assert AllWired(catalog, units, before);
    UsedIffKeyed(catalog, units, before, SourceSide, SourceKey(c));
    UsedIffKeyed(catalog, units, before, TargetSide, TargetKey(c));
    SingleUseStep(connections, i);
  }

  lemma SingleUseStep(connections: seq<Connection>, i: nat)
    requires i < |connections|
    ensures SingleUse(connections[..i + 1]) <==>
      && SingleUse(connections[..i])
      && !Keyed(connections[..i], SourceSide, SourceKey(connections[i]))
      && !Keyed(connections[..i], TargetSide, TargetKey(connections[i]))
  {
    var before, now, c := connections[..i], connections[..i + 1], connections[i];
    assert now[i] == c && forall k :: 0 <= k < i ==> before[k] == now[k];
    if !Keyed(before, SourceSide, SourceKey(c)) && !Keyed(before, TargetSide, TargetKey(c)) {
      assert forall k :: 0 <= k < i ==>
        KeyOn(SourceSide, before[k]) != SourceKey(c) && KeyOn(TargetSide, before[k]) != TargetKey(c);
    } else {
      var k :| 0 <= k < i && (KeyOn(SourceSide, before[k]) == SourceKey(c)
        || KeyOn(TargetSide, before[k]) == TargetKey(c));
      assert now[k] == before[k] && KeyOn(SourceSide, before[k]) == SourceKey(now[k])
        && KeyOn(TargetSide, before[k]) == TargetKey(now[k]);
      assert now[i] == c;
      assert SourceKey(now[k]) == SourceKey(now[i]) || TargetKey(now[k]) == TargetKey(now[i]);
    }
  }

  /** What is reported of a connection, given those before it. */
  predicate ConnectionDefect(catalog: Catalog, units: seq<Unit>, connections: seq<Connection>, i: nat, d: Diagnostic)
    requires i < |connections|
  {
    var c := connections[i];
    match d.code
    case UnknownUnit => d.subject == Some(c.id) && !(Defined(units, c.source) && Defined(units, c.target))
    case UnknownPort => d.subject == Some(c.id) && Described(catalog, units, c) && !Ported(catalog, units, c)
    case IncompatiblePort =>
      d.subject == Some(c.id) && Described(catalog, units, c) && Ported(catalog, units, c) && !Wired(catalog, units, c)
    case MaterialFanout =>
      d.subject == Some(c.source) && Wired(catalog, units, c) && UsedBefore(catalog, units, connections, i, SourceSide)
    case MultipleFeeds =>
      d.subject == Some(c.target) && Wired(catalog, units, c) && UsedBefore(catalog, units, connections, i, TargetSide)
    case _ => false
  }

  /** Both ends are units of registered models. */
  predicate Described(catalog: Catalog, units: seq<Unit>, c: Connection) {
    && Defined(units, c.source) && Definition(units, c.source).model in catalog
    && Defined(units, c.target) && Definition(units, c.target).model in catalog
  }

  /** Both ends are ports of their units. */
  predicate Ported(catalog: Catalog, units: seq<Unit>, c: Connection) {
    PortAt(catalog, units, SourceKey(c)).Some? && PortAt(catalog, units, TargetKey(c)).Some?
  }

  /** An earlier accepted connection has the same port on that side. */
  predicate UsedBefore(catalog: Catalog, units: seq<Unit>, connections: seq<Connection>, i: nat, side: Side)
    requires i < |connections|
  {
    exists k :: 0 <= k < i && Wired(catalog, units, connections[k])
                && KeyOn(side, connections[k]) == KeyOn(side, connections[i])
  }

  lemma {:induction false} UsedIffBefore(catalog: Catalog, units: seq<Unit>, connections: seq<Connection>, n: nat,
                                         i: nat, side: Side)
    requires n <= i < |connections|
    ensures Uses(catalog, units, connections[..n], side, KeyOn(side, connections[i])) > 0 <==>
      exists k :: 0 <= k < n && Wired(catalog, units, connections[k])
                  && KeyOn(side, connections[k]) == KeyOn(side, connections[i])
    decreases n
  {
    hide Wired;
    if n > 0 {
      UsedIffBefore(catalog, units, connections, n - 1, i, side);
      assert connections[..n][..n - 1] == connections[..n - 1] && connections[..n][n - 1] == connections[n - 1];
    }
  }

  predicate SomeConnectionDefect(catalog: Catalog, units: seq<Unit>, connections: seq<Connection>, n: nat,
      d: Diagnostic)
    requires n <= |connections|
  {
    exists i :: 0 <= i < n && ConnectionDefect(catalog, units, connections, i, d)
  }

  lemma NextConnectionDefect(catalog: Catalog, units: seq<Unit>, connections: seq<Connection>, n: nat, d: Diagnostic)
    requires n < |connections|
    ensures SomeConnectionDefect(catalog, units, connections, n + 1, d) <==>
      || SomeConnectionDefect(catalog, units, connections, n, d)
      || ConnectionDefect(catalog, units, connections, n, d)
  {
    hide ConnectionDefect;
  }

  lemma NoConnectionDefect(catalog: Catalog, units: seq<Unit>, connections: seq<Connection>)
    ensures forall d :: !SomeConnectionDefect(catalog, units, connections, 0, d)
  {
  }

  /** The checks of one connection by itself. */
  method CheckEnds(catalog: Catalog, units: seq<Unit>, c: Connection) returns (code: Option<Code>, accepted: bool)
    ensures accepted <==> Wired(catalog, units, c)
    ensures code == Some(UnknownUnit) <==> !(Defined(units, c.source) && Defined(units, c.target))
    ensures code == Some(UnknownPort) <==> Described(catalog, units, c) && !Ported(catalog, units, c)
    ensures code == Some(IncompatiblePort) <==>
      Described(catalog, units, c) && Ported(catalog, units, c) && !Wired(catalog, units, c)
    ensures code.Some? ==> code.value in {UnknownUnit, UnknownPort, IncompatiblePort}
    ensures accepted ==> code == None
    ensures !accepted && code.None? ==>
      Defined(units, c.source) && Defined(units, c.target) && !Described(catalog, units, c)
  {
    if !Defined(units, c.source) || !Defined(units, c.target) { return Some(UnknownUnit), false; }
    var source, target := Definition(units, c.source), Definition(units, c.target);
    if source.model !in catalog || target.model !in catalog { return None, false; }
    var sourcePort := FindPort(catalog[source.model].ports, c.sourcePort);
    var targetPort := FindPort(catalog[target.model].ports, c.targetPort);
    if sourcePort.None? || targetPort.None? { return Some(UnknownPort), false; }
    if !Compatible(sourcePort.value, targetPort.value) { return Some(IncompatiblePort), false; }
    return None, true;
  }

  method CheckConnections(catalog: Catalog, units: seq<Unit>, connections: seq<Connection>)
    returns (diagnostics: seq<Diagnostic>, incoming: Counter, edges: set<(Id, Id)>)
    ensures Counts(catalog, units, connections, TargetSide, incoming)
    ensures edges == FlowGraph(catalog, units, connections).edges
    ensures (forall i :: 0 <= i < |units| ==> units[i].model in catalog) ==>
              (diagnostics == [] <==> AllWired(catalog, units, connections) && SingleUse(connections))
    ensures forall d :: d in diagnostics <==> SomeConnectionDefect(catalog, units, connections, |connections|, d)
  {
    hide FindPort, Compatible, Definition, SomeConnectionDefect, ConnectionDefect, Wired, UsedBefore, Counts, Ported;
    diagnostics, incoming, edges := [], map[], {};
    var outgoing: Counter := map[];
    NoConnectionDefect(catalog, units, connections);
    NothingCounted(catalog, units, connections);
    for i := 0 to |connections|
      invariant Counts(catalog, units, connections[..i], TargetSide, incoming)
      invariant Counts(catalog, units, connections[..i], SourceSide, outgoing)
      invariant edges == FlowGraph(catalog, units, connections[..i]).edges
      invariant (forall k :: 0 <= k < |units| ==> units[k].model in catalog) ==>
        (diagnostics == [] <==> AllWired(catalog, units, connections[..i]) && SingleUse(connections[..i]))
      invariant forall d :: d in diagnostics <==> SomeConnectionDefect(catalog, units, connections, i, d)
    {
      var c := connections[i];
      CountOneMore(catalog, units, connections, i, TargetSide, incoming);
      CountOneMore(catalog, units, connections, i, SourceSide, outgoing);
      ConnectionStep(catalog, units, connections, i);
      CountedBefore(catalog, units, connections, i, SourceSide, outgoing);
      CountedBefore(catalog, units, connections, i, TargetSide, incoming);
      forall d { NextConnectionDefect(catalog, units, connections, i, d); }
      if Defined(units, c.source) && Defined(units, c.target) { DescribedIfKnown(catalog, units, c); }
      var code, accepted := CheckEnds(catalog, units, c);
      var found := if code.Some? then [Diagnostic(code.value, Some(c.id))] else [];
      if accepted {
        var sourceKey, targetKey := SourceKey(c), TargetKey(c);
        outgoing := outgoing[sourceKey := Got(outgoing, sourceKey) + 1];
        incoming := incoming[targetKey := Got(incoming, targetKey) + 1];
        if outgoing[sourceKey] > 1 { found := found + [Diagnostic(MaterialFanout, Some(c.source))]; }
        if incoming[targetKey] > 1 { found := found + [Diagnostic(MultipleFeeds, Some(c.target))]; }
        edges := edges + {(c.source, c.target)};
      }
      FoundAreDefects(catalog, units, connections, i, found);
      diagnostics := diagnostics + found;
    }
    assert connections[..|connections|] == connections;
  }

  /** The diagnostics of one connection, from its checks. */
  lemma FoundAreDefects(catalog: Catalog, units: seq<Unit>, connections: seq<Connection>, i: nat,
      found: seq<Diagnostic>)
    requires i < |connections|
    requires var c := connections[i];
      (forall d :: d in found <==>
            || (d == Diagnostic(UnknownUnit, Some(c.id)) && !(Defined(units, c.source) && Defined(units, c.target)))
            || (d == Diagnostic(UnknownPort, Some(c.id)) && Described(catalog, units, c) && !Ported(catalog, units, c))
            || (d == Diagnostic(IncompatiblePort, Some(c.id)) && Described(catalog, units, c)
                && Ported(catalog, units, c) && !Wired(catalog, units, c))
            || (d == Diagnostic(MaterialFanout, Some(c.source)) && Wired(catalog, units, c)
                && UsedBefore(catalog, units, connections, i, SourceSide))
            || (d == Diagnostic(MultipleFeeds, Some(c.target)) && Wired(catalog, units, c)
                && UsedBefore(catalog, units, connections, i, TargetSide)))
    ensures forall d :: d in found <==> ConnectionDefect(catalog, units, connections, i, d)
  {
    hide Wired, UsedBefore, Ported, Described, Defined;
  }

  lemma DescribedIfKnown(catalog: Catalog, units: seq<Unit>, c: Connection)
    requires Defined(units, c.source) && Defined(units, c.target)
    ensures (forall i :: 0 <= i < |units| ==> units[i].model in catalog) ==> Described(catalog, units, c)
  {
  }

  lemma NothingCounted(catalog: Catalog, units: seq<Unit>, connections: seq<Connection>)
    ensures forall side :: Counts(catalog, units, connections[..0], side, map[])
  {
  }

  /** What a counter says of the port of the next connection. */
  lemma CountedBefore(catalog: Catalog, units: seq<Unit>, connections: seq<Connection>, i: nat, side: Side,
      counter: Counter)
    requires i < |connections| && Counts(catalog, units, connections[..i], side, counter)
    ensures var key := KeyOn(side, connections[i]);
      && Got(counter, key) == Uses(catalog, units, connections[..i], side, key)
      && (Got(counter, key) > 0 <==> UsedBefore(catalog, units, connections, i, side))
  {
    hide Wired;
    UsedIffBefore(catalog, units, connections, i, i, side);
  }

  /** How the specification grows by one connection. */
  lemma ConnectionStep(catalog: Catalog, units: seq<Unit>, connections: seq<Connection>, i: nat)
    requires i < |connections|
    ensures AllWired(catalog, units, connections[..i + 1])
       <==> AllWired(catalog, units, connections[..i]) && Wired(catalog, units, connections[i])
    ensures SingleUse(connections[..i + 1]) ==> SingleUse(connections[..i])
    ensures AllWired(catalog, units, connections[..i + 1]) ==>
      (SingleUse(connections[..i + 1]) <==>
         && SingleUse(connections[..i])
         && Uses(catalog, units, connections[..i], SourceSide, SourceKey(connections[i])) == 0
         && Uses(catalog, units, connections[..i], TargetSide, TargetKey(connections[i])) == 0)
    ensures FlowGraph(catalog, units, connections[..i + 1]).edges
         == FlowGraph(catalog, units, connections[..i]).edges
          + (if Wired(catalog, units, connections[i]) then {(connections[i].source, connections[i].target)} else {})
  {
    hide Wired;
    var before, now := connections[..i], connections[..i + 1];
    assert forall k :: 0 <= k < i ==> before[k] == now[k];
    if AllWired(catalog, units, now) {
      SingleUseExtends(catalog, units, connections, i);
    }
    var was, grown := FlowGraph(catalog, units, before).edges, FlowGraph(catalog, units, now).edges;
    forall e | e in grown
      ensures e in was
        || (Wired(catalog, units, connections[i]) && e == (connections[i].source, connections[i].target))
    {
      var k :| 0 <= k < |now| && Wired(catalog, units, now[k]) && e == (now[k].source, now[k].target);
      if k < i { assert before[k] == now[k]; }
    }
    forall e | e in was ensures e in grown {
      var k :| 0 <= k < |before| && Wired(catalog, units, before[k]) && e == (before[k].source, before[k].target);
      assert now[k] == before[k];
    }
    if Wired(catalog, units, connections[i]) {
      assert now[i] == connections[i];
      assert (now[i].source, now[i].target) in grown;
    }
  }

  // ---- Unfed inputs -------------------------------------------------------------------

  predicate Unfed(c: Case, catalog: Catalog, u: Unit, p: Port) {
    p.required && p.direction == Input && Uses(catalog, c.units, c.connections, TargetSide, (u.id, p.id)) == 0
  }

  function UnfedPorts(c: Case, catalog: Catalog, u: Unit, ports: seq<Port>): nat {
    if ports == [] then 0
    else
      UnfedPorts(c, catalog, u, ports[..|ports| - 1]) + (if Unfed(c, catalog, u, ports[|ports| - 1]) then 1 else 0)
  }

  function UnfedInputs(c: Case, catalog: Catalog, units: seq<Unit>): nat {
    if units == [] then 0
    else
      var u := units[|units| - 1];
      UnfedInputs(c, catalog, units[..|units| - 1])
      + (if u.model in catalog then UnfedPorts(c, catalog, u, catalog[u.model].ports) else 0)
  }

  lemma {:induction false} UnfedPortsZero(c: Case, catalog: Catalog, u: Unit, ports: seq<Port>)
    ensures UnfedPorts(c, catalog, u, ports) == 0 <==> forall p :: p in ports ==> !Unfed(c, catalog, u, p)
  {
    hide Unfed;
    if ports != [] {
      var front, last := ports[..|ports| - 1], ports[|ports| - 1];
      UnfedPortsZero(c, catalog, u, front);
      assert ports == front + [last];
    }
  }

  lemma FedIffUsed(c: Case, catalog: Catalog, u: Unit)
    requires AllWired(catalog, c.units, c.connections) && u.model in catalog
    ensures UnfedPorts(c, catalog, u, catalog[u.model].ports) == 0 <==> InputsFed(catalog, u, c.connections)
  {
    hide Wired;
    UnfedPortsZero(c, catalog, u, catalog[u.model].ports);
    forall p: Port
      ensures Uses(catalog, c.units, c.connections, TargetSide, (u.id, p.id)) == 0 <==>
        !Feeds(c.connections, (u.id, p.id))
    {
      UsedIffKeyed(catalog, c.units, c.connections, TargetSide, (u.id, p.id));
    }
  }

  /** What is reported of the inputs of a unit. */
  predicate InputDefect(c: Case, catalog: Catalog, u: Unit, d: Diagnostic) {
    && d == Diagnostic(UnconnectedInput, Some(u.id)) && u.model in catalog
    && !AllFed(c, catalog, u, catalog[u.model].ports)
  }

  predicate AllFed(c: Case, catalog: Catalog, u: Unit, ports: seq<Port>) {
    forall p :: p in ports ==> !Unfed(c, catalog, u, p)
  }

  predicate SomeInputDefect(c: Case, catalog: Catalog, n: nat, d: Diagnostic)
    requires n <= |c.units|
  {
    exists i :: 0 <= i < n && InputDefect(c, catalog, c.units[i], d)
  }

  lemma NextInputDefect(c: Case, catalog: Catalog, n: nat, d: Diagnostic)
    requires n < |c.units|
    ensures SomeInputDefect(c, catalog, n + 1, d) <==>
      SomeInputDefect(c, catalog, n, d) || InputDefect(c, catalog, c.units[n], d)
  {
    hide InputDefect;
  }

  lemma NoInputDefect(c: Case, catalog: Catalog)
    ensures forall d :: !SomeInputDefect(c, catalog, 0, d)
  {
  }

  method CheckInputs(c: Case, catalog: Catalog, incoming: Counter) returns (diagnostics: seq<Diagnostic>, missing: nat)
    requires Counts(catalog, c.units, c.connections, TargetSide, incoming)
    ensures missing == UnfedInputs(c, catalog, c.units) == |diagnostics|
    ensures AllWired(catalog, c.units, c.connections) ==>
      (missing == 0 <==> forall i :: 0 <= i < |c.units| ==> InputsFed(catalog, c.units[i], c.connections))
    ensures forall d :: d in diagnostics <==> SomeInputDefect(c, catalog, |c.units|, d)
  {
    hide Wired, InputsFed, SomeInputDefect, AllFed;
    NoInputDefect(c, catalog);
    diagnostics, missing := [], 0;
    for i := 0 to |c.units|
      invariant missing == UnfedInputs(c, catalog, c.units[..i]) == |diagnostics|
      invariant AllWired(catalog, c.units, c.connections) ==>
        (missing == 0 <==> forall k :: 0 <= k < i ==> InputsFed(catalog, c.units[k], c.connections))
      invariant forall d :: d in diagnostics <==> SomeInputDefect(c, catalog, i, d)
    {
      forall d { NextInputDefect(c, catalog, i, d); }
      var u := c.units[i];
      assert c.units[..i + 1][..i] == c.units[..i];
      if u.model in catalog {
        var found, m := CheckPorts(c, catalog, u, catalog[u.model].ports, incoming);
        assert forall d :: d in found <==> InputDefect(c, catalog, u, d);
        diagnostics := diagnostics + found;
        missing := missing + m;
        if AllWired(catalog, c.units, c.connections) { FedIffUsed(c, catalog, u); }
      } else {
        assert forall d :: !InputDefect(c, catalog, u, d);
        UndescribedIsFed(catalog, u, c.connections);
      }
    }
    assert c.units[..|c.units|] == c.units;
  }

  lemma UndescribedIsFed(catalog: Catalog, u: Unit, connections: seq<Connection>)
    requires u.model !in catalog
    ensures InputsFed(catalog, u, connections)
  {
  }

  method CheckPorts(c: Case, catalog: Catalog, u: Unit, ports: seq<Port>, incoming: Counter)
    returns (diagnostics: seq<Diagnostic>, missing: nat)
    requires Counts(catalog, c.units, c.connections, TargetSide, incoming)
    ensures missing == UnfedPorts(c, catalog, u, ports) == |diagnostics|
    ensures forall d :: d in diagnostics <==>
      d == Diagnostic(UnconnectedInput, Some(u.id)) && !AllFed(c, catalog, u, ports)
  {
    hide Wired;
    diagnostics, missing := [], 0;
    for i := 0 to |ports|
      invariant missing == UnfedPorts(c, catalog, u, ports[..i]) == |diagnostics|
      invariant forall d :: d in diagnostics ==> d == Diagnostic(UnconnectedInput, Some(u.id))
    {
      assert ports[..i + 1][..i] == ports[..i];
      if ports[i].required && ports[i].direction == Input && Got(incoming, (u.id, ports[i].id)) == 0 {
        missing := missing + 1;
        diagnostics := diagnostics + [Diagnostic(UnconnectedInput, Some(u.id))];
      }
    }
    assert ports[..|ports|] == ports;
    UnfedPortsZero(c, catalog, u, ports);
    assert diagnostics != [] ==> diagnostics[0] in diagnostics;
  }

  // ---- The compiler -------------------------------------------------------------------

  lemma FlowGraphClosed(catalog: Catalog, c: Case)
    ensures Closed(FlowGraph(catalog, c.units, c.connections))
  {
    forall i | 0 <= i < |c.connections| && Wired(catalog, c.units, c.connections[i])
      ensures c.connections[i].source in UnitIds(c.units) && c.connections[i].target in UnitIds(c.units)
    {
    }
  }

  ghost predicate CycleGroup(g: Graph, group: seq<Id>) {
    exists v :: v in g.nodes && Reaches(g, v, v) && group == Sorted(ComponentOf(g, v))
  }

  /** The listed groups are the components that hold a cycle, each once and in ascending order. */
  ghost predicate RecycleGroups(g: Graph, groups: seq<seq<Id>>) {
    && (forall i :: 0 <= i < |groups| ==> CycleGroup(g, groups[i]))
    && (forall v :: v in g.nodes && Reaches(g, v, v) ==> Sorted(ComponentOf(g, v)) in groups)
    && (forall i, j :: 0 <= i < j < |groups| ==> groups[i] != groups[j])
  }

  lemma SortedInjective(a: set<Node>, b: set<Node>)
    requires Sorted(a) == Sorted(b)
    ensures a == b
  {
    SortedPermutes(a);
    SortedPermutes(b);
  }

  ghost predicate FoundAmong(g: Graph, components: seq<set<Node>>, i: nat, group: seq<Id>)
    requires i <= |components|
  {
    exists j :: 0 <= j < i && IsRecycle(g, components[j]) && group == Sorted(components[j])
  }

  /** The groups found among the first `i` components. */
  ghost predicate FoundGroups(g: Graph, components: seq<set<Node>>, i: nat, groups: seq<seq<Id>>)
    requires i <= |components|
  {
    && (forall k :: 0 <= k < |groups| ==> FoundAmong(g, components, i, groups[k]))
    && (forall j :: 0 <= j < i && IsRecycle(g, components[j]) ==> Sorted(components[j]) in groups)
    && (forall k, l :: 0 <= k < l < |groups| ==> groups[k] != groups[l])
  }

  lemma FoundOneMore(g: Graph, components: seq<set<Node>>, i: nat, groups: seq<seq<Id>>)
    requires Partition(g, components) && i < |components| && FoundGroups(g, components, i, groups)
    ensures FoundGroups(g, components, i + 1,
              if IsRecycle(g, components[i]) then groups + [Sorted(components[i])] else groups)
  {
    hide Sorted, ComponentOf, IsRecycle;
    var added := Sorted(components[i]);
    forall k | 0 <= k < |groups| ensures groups[k] != added && FoundAmong(g, components, i + 1, groups[k]) {
      var j :| 0 <= j < i && IsRecycle(g, components[j]) && groups[k] == Sorted(components[j]);
      if Sorted(components[j]) == added { SortedInjective(components[j], components[i]); }
    }
    if IsRecycle(g, components[i]) {
      var all := groups + [added];
      assert FoundAmong(g, components, i + 1, added);
      forall k | 0 <= k < |all| ensures FoundAmong(g, components, i + 1, all[k]) {
        if k < |groups| { assert all[k] == groups[k]; }
      }
      forall j | 0 <= j < i + 1 && IsRecycle(g, components[j]) ensures Sorted(components[j]) in all {
        if j == i { assert all[|groups|] == added; } else { assert Sorted(components[j]) in groups; }
      }
      forall k, l | 0 <= k < l < |all| ensures all[k] != all[l] {
        assert all[k] == groups[k];
      }
    }
  }

  method FindRecycles(g: Graph, components: seq<set<Node>>) returns (groups: seq<seq<Id>>)
    requires Closed(g) && Partition(g, components) && Covers(components, g.nodes)
    ensures RecycleGroups(g, groups)
    ensures groups == [] <==> !Cyclic(g)
  {
    hide Sorted, Partition, Covers, IsRecycle, FoundGroups, RecycleGroups, Cyclic;
    groups := [];
    assert FoundGroups(g, components, 0, groups) by { NoneFound(g, components); }
    for i := 0 to |components|
      invariant FoundGroups(g, components, i, groups)
    {
      FoundOneMore(g, components, i, groups);
      if IsRecycle(g, components[i]) {
        groups := groups + [Sorted(components[i])];
      }
    }
    GroupsAreCycles(g, components, groups);
  }

  lemma NoneFound(g: Graph, components: seq<set<Node>>)
    ensures FoundGroups(g, components, 0, [])
  {
  }

  lemma GroupsAreCycles(g: Graph, components: seq<set<Node>>, groups: seq<seq<Id>>)
    requires Closed(g) && Partition(g, components) && Covers(components, g.nodes)
    requires FoundGroups(g, components, |components|, groups)
    ensures RecycleGroups(g, groups)
    ensures groups == [] <==> !Cyclic(g)
  {
    hide Sorted, ComponentOf, IsRecycle, Reaches, FoundAmong, Joined;
    forall k | 0 <= k < |groups| ensures CycleGroup(g, groups[k]) {
      assert FoundAmong(g, components, |components|, groups[k]);
      FoundIsCycle(g, components, groups[k]);
    }
    forall v | v in g.nodes && Reaches(g, v, v) ensures Sorted(ComponentOf(g, v)) in groups {
      var j :| 0 <= j < |components| && v in components[j];
      RecycleIffCycle(g, v);
    }
    GroupsIffCyclic(g, groups);
  }

  lemma GroupsIffCyclic(g: Graph, groups: seq<seq<Id>>)
    requires Closed(g) && RecycleGroups(g, groups)
    ensures groups == [] <==> !Cyclic(g)
  {
    hide Sorted, ComponentOf, Reaches;
    if groups != [] {
      assert CycleGroup(g, groups[0]);
    }
    if Cyclic(g) {
      var v :| Reaches(g, v, v);
      ReachedIsNode(g, v, v);
    }
  }

  lemma FoundIsCycle(g: Graph, components: seq<set<Node>>, group: seq<Id>)
    requires Closed(g) && Partition(g, components) && FoundAmong(g, components, |components|, group)
    ensures CycleGroup(g, group)
  {
    hide Sorted, ComponentOf, IsRecycle, Reaches;
    var j :| 0 <= j < |components| && IsRecycle(g, components[j]) && group == Sorted(components[j]);
    var v :| v in components[j];
    RecycleIffCycle(g, v);
  }

  /** The execution order: the least topological order of an acyclic flowsheet, otherwise
      component after component. */
  ghost predicate ExecutionOrder(g: Graph, order: seq<Id>) {
    && Permutes(order, g.nodes)
    && (!Cyclic(g) ==> Forward(g, order) && order == LeastOrder(g, g.nodes))
    && (Cyclic(g) ==> Contiguous(g, order) && CrossForward(g, order))
  }

  method Order(g: Graph, components: seq<set<Node>>) returns (order: seq<Id>)
    requires Closed(g) && Partition(g, components) && Covers(components, g.nodes)
    ensures ExecutionOrder(g, order)
  {
    hide Partition, Covers, LeastOrder, Reaches;
    order := LexicographicalSort(g);
    SortedIffAcyclic(g);
    LeastOrderSound(g, g.nodes);
    if |order| != |g.nodes| {
      order := CondensedOrder(g, components);
    }
  }

  /** Every diagnostic of a case: of its units, of its connections, of inputs nothing feeds, and one
      for a recycle. */
  ghost predicate Reported(catalog: Catalog, c: Case, d: Diagnostic) {
    || SomeUnitDefect(catalog, c.units, |c.units|, d)
    || SomeConnectionDefect(catalog, c.units, c.connections, |c.connections|, d)
    || SomeInputDefect(c, catalog, |c.units|, d)
    || (d == Diagnostic(RecycleNotSupported, None) && Cyclic(FlowGraph(catalog, c.units, c.connections)))
  }

  method Compile(catalog: Catalog, c: Case) returns (report: Report)
    requires WellFormed(c)
    ensures report.valid <==> ValidCase(catalog, c)
    ensures report.degreesOfFreedom == MissingValues(catalog, c.units) + UnfedInputs(c, catalog, c.units)
    ensures ExecutionOrder(FlowGraph(catalog, c.units, c.connections), report.order)
    ensures RecycleGroups(FlowGraph(catalog, c.units, c.connections), report.recycleGroups)
    ensures report.recycleGroups == [] <==> !Cyclic(FlowGraph(catalog, c.units, c.connections))
    ensures forall d :: d in report.diagnostics <==> Reported(catalog, c, d)
  {
    hide UnitComplete, Wired, InputsFed, ExecutionOrder, RecycleGroups, Partition, Covers, SingleUse, Cyclic,
         SomeUnitDefect, SomeConnectionDefect, SomeInputDefect;
    var d1, m1 := CheckUnits(catalog, c.units);
    var d2, incoming, edges := CheckConnections(catalog, c.units, c.connections);
    var d3, m3 := CheckInputs(c, catalog, incoming);
    var g := Graph(UnitIds(c.units), edges);
    FlowGraphClosed(catalog, c);
    var components := StrongComponents(g);
    var groups := FindRecycles(g, components);
    var d4 := if groups == [] then [] else [Diagnostic(RecycleNotSupported, None)];
    var order := Order(g, components);
    var diagnostics := d1 + d2 + d3 + d4;
    var missing := m1 + m3;
    assert diagnostics == [] <==> d1 == [] && d2 == [] && d3 == [] && d4 == [];
    assert d1 == [] ==> forall i :: 0 <= i < |c.units| ==> c.units[i].model in catalog by {
      CompleteIsKnown(catalog, c.units);
    }
    report := Report(missing == 0 && diagnostics == [], missing, diagnostics, order, groups);
  }

  lemma CompleteIsKnown(catalog: Catalog, units: seq<Unit>)
    ensures (forall i :: 0 <= i < |units| ==> UnitComplete(catalog, units[i])) ==>
              forall i :: 0 <= i < |units| ==> units[i].model in catalog
  {
  }

  // ---- Degrees of freedom ---------------------------------------------------------------------

  /** Something a unit lacks. */
  datatype Lack =
    | LacksParameter(unit: Id, parameter: Parameter)
    | LacksMetadata(unit: Id, name: string)
    | LacksFeed(unit: Id, port: PortId)

  predicate LackedBy(catalog: Catalog, c: Case, u: Unit, l: Lack) {
    && u.model in catalog && l.unit == u.id
    && match l
       case LacksParameter(_, p) => p in catalog[u.model].requiredParameters && p !in u.parameters
       case LacksMetadata(_, m) => m in catalog[u.model].requiredMetadata && m !in u.metadata
       case LacksFeed(_, id) => exists k :: && 0 <= k < |catalog[u.model].ports| && catalog[u.model].ports[k].id == id
                                            && Unfed(c, catalog, u, catalog[u.model].ports[k])
  }

  /** No descriptor requires a name twice or has two ports of one identifier. */
  ghost predicate Clean(catalog: Catalog) {
    forall m :: m in catalog ==>
      && NoRepeat(catalog[m].requiredParameters) && NoRepeat(catalog[m].requiredMetadata)
      && NoRepeat(PortIds(catalog[m].ports))
  }

  predicate NoRepeat<T(==)>(names: seq<T>) {
    forall i, j :: 0 <= i < j < |names| ==> names[i] != names[j]
  }

  function PortIds(ports: seq<Port>): seq<PortId> {
    seq(|ports|, k requires 0 <= k < |ports| => ports[k].id)
  }

  lemma {:induction false} AbsentCounts<T>(names: seq<T>, present: set<T>) returns (absent: set<T>)
    requires NoRepeat(names)
    ensures forall n :: n in absent <==> n in names && n !in present
    ensures |absent| == Absent(names, present)
  {
    absent := {};
    if names != [] {
      var n := |names| - 1;
      absent := AbsentCounts(names[..n], present);
      assert names == names[..n] + [names[n]];
      if names[n] !in present { absent := absent + {names[n]}; }
    }
  }

  lemma {:induction false} UnfedCounts(c: Case, catalog: Catalog, u: Unit, ports: seq<Port>)
      returns (unfed: set<PortId>)
    requires NoRepeat(PortIds(ports))
    ensures forall id :: id in unfed <==>
      exists k :: 0 <= k < |ports| && ports[k].id == id && Unfed(c, catalog, u, ports[k])
    ensures |unfed| == UnfedPorts(c, catalog, u, ports)
  {
    hide Unfed;
    unfed := {};
    if ports != [] {
      var n := |ports| - 1;
      assert forall k :: 0 <= k < n ==> PortIds(ports)[k] == PortIds(ports[..n])[k];
      var front := UnfedCounts(c, catalog, u, ports[..n]);
      unfed := if Unfed(c, catalog, u, ports[n]) then front + {ports[n].id} else front;
      forall id
        ensures id in unfed <==> exists k :: 0 <= k < |ports| && ports[k].id == id && Unfed(c, catalog, u, ports[k])
      {
        if id in front {
          var k :| 0 <= k < n && ports[..n][k].id == id && Unfed(c, catalog, u, ports[..n][k]);
          assert ports[k].id == id;
        }
        if k :| 0 <= k < |ports| && ports[k].id == id && Unfed(c, catalog, u, ports[k]) {
          assert k < n ==> ports[..n][k].id == id;
        }
      }
      assert forall k :: 0 <= k < n ==> PortIds(ports)[k] == ports[..n][k].id != PortIds(ports)[n];
    }
  }

  lemma LackedParameters(catalog: Catalog, c: Case, u: Unit) returns (lacked: set<Lack>)
    requires Clean(catalog) && u.model in catalog
    ensures forall l :: l in lacked <==> l.LacksParameter? && LackedBy(catalog, c, u, l)
    ensures |lacked| == Absent(catalog[u.model].requiredParameters, u.parameters.Keys)
  {
    var ps := AbsentCounts(catalog[u.model].requiredParameters, u.parameters.Keys);
    lacked := set p | p in ps :: LacksParameter(u.id, p);
    ImageSize(ps, lacked, p => LacksParameter(u.id, p));
  }

  lemma LackedMetadata(catalog: Catalog, c: Case, u: Unit) returns (lacked: set<Lack>)
    requires Clean(catalog) && u.model in catalog
    ensures forall l :: l in lacked <==> l.LacksMetadata? && LackedBy(catalog, c, u, l)
    ensures |lacked| == Absent(catalog[u.model].requiredMetadata, u.metadata.Keys)
  {
    var ms := AbsentCounts(catalog[u.model].requiredMetadata, u.metadata.Keys);
    lacked := set m | m in ms :: LacksMetadata(u.id, m);
    ImageSize(ms, lacked, m => LacksMetadata(u.id, m));
  }

  lemma LackedFeeds(catalog: Catalog, c: Case, u: Unit) returns (lacked: set<Lack>)
    requires Clean(catalog) && u.model in catalog
    ensures forall l :: l in lacked <==> l.LacksFeed? && LackedBy(catalog, c, u, l)
    ensures |lacked| == UnfedPorts(c, catalog, u, catalog[u.model].ports)
  {
    hide Unfed;
    var fs := UnfedCounts(c, catalog, u, catalog[u.model].ports);
    lacked := set f | f in fs :: LacksFeed(u.id, f);
    ImageSize(fs, lacked, f => LacksFeed(u.id, f));
  }

  lemma LackedUnit(catalog: Catalog, c: Case, u: Unit) returns (lacked: set<Lack>)
    requires Clean(catalog)
    ensures forall l :: l in lacked <==> LackedBy(catalog, c, u, l)
    ensures |lacked| == MissingValues(catalog, [u]) + UnfedInputs(c, catalog, [u])
  {
    hide LackedBy, Clean, Absent, UnfedPorts;
    OneUnit(catalog, c, u);
    if u.model !in catalog {
      NothingLacked(catalog, c, u);
      return {};
    }
    var ps := LackedParameters(catalog, c, u);
    var ms := LackedMetadata(catalog, c, u);
    var fs := LackedFeeds(catalog, c, u);
    hide MissingValues, UnfedInputs;
    assert ps !! ms && (ps + ms) !! fs;
    return ps + ms + fs;
  }

  lemma NothingLacked(catalog: Catalog, c: Case, u: Unit)
    requires u.model !in catalog
    ensures forall l :: !LackedBy(catalog, c, u, l)
  {
  }

  lemma OneUnit(catalog: Catalog, c: Case, u: Unit)
    ensures u.model in catalog ==>
      && MissingValues(catalog, [u]) == Absent(catalog[u.model].requiredParameters, u.parameters.Keys)
                                        + Absent(catalog[u.model].requiredMetadata, u.metadata.Keys)
      && UnfedInputs(c, catalog, [u]) == UnfedPorts(c, catalog, u, catalog[u.model].ports)
    ensures u.model !in catalog ==> MissingValues(catalog, [u]) == 0 && UnfedInputs(c, catalog, [u]) == 0
  {
    assert [u][..0] == [];
  }

  /** An injective image has as many members. */
  lemma {:induction false} ImageSize<S, T>(s: set<S>, t: set<T>, f: S -> T)
    requires forall x, y :: x in s && y in s && f(x) == f(y) ==> x == y
    requires t == set x | x in s :: f(x)
    ensures |t| == |s|
    decreases s
  {
    if s != {} {
      var x :| x in s;
      var rest := set y | y in s - {x} :: f(y);
      ImageSize(s - {x}, rest, f);
      assert t == rest + {f(x)};
    }
  }

  lemma {:induction false} LackedUnits(catalog: Catalog, c: Case, units: seq<Unit>) returns (lacked: set<Lack>)
    requires Clean(catalog) && forall i, j :: 0 <= i < j < |units| ==> units[i].id != units[j].id
    ensures forall l :: l in lacked <==> exists i :: 0 <= i < |units| && LackedBy(catalog, c, units[i], l)
    ensures |lacked| == MissingValues(catalog, units) + UnfedInputs(c, catalog, units)
    decreases |units|
  {
    hide LackedBy, Clean;
    lacked := {};
    if units != [] {
      var n := |units| - 1;
      var front := LackedUnits(catalog, c, units[..n]);
      var last := LackedUnit(catalog, c, units[n]);
      lacked := front + last;
      forall l ensures l in lacked <==> exists i :: 0 <= i < |units| && LackedBy(catalog, c, units[i], l) {
        assert forall i :: 0 <= i < n ==> units[..n][i] == units[i];
      }
      LackedApart(catalog, c, units, front, last);
      assert [units[n]][..0] == [] && [units[n]][0] == units[n];
    }
  }

  lemma LackedApart(catalog: Catalog, c: Case, units: seq<Unit>, front: set<Lack>, last: set<Lack>)
    requires units != [] && forall i, j :: 0 <= i < j < |units| ==> units[i].id != units[j].id
    requires forall l :: l in front ==> exists i :: 0 <= i < |units| - 1 && LackedBy(catalog, c, units[i], l)
    requires forall l :: l in last ==> LackedBy(catalog, c, units[|units| - 1], l)
    ensures front !! last
  {
    hide Unfed;
    forall l | l in front ensures l !in last {
      var i :| 0 <= i < |units| - 1 && LackedBy(catalog, c, units[i], l);
      assert l.unit == units[i].id;
    }
  }

  /** The degrees of freedom are the number of distinct things the units lack: required parameters
      and metadata that are not given, and required inputs that no accepted connection feeds. */
  lemma FreedomCountsLacks(catalog: Catalog, c: Case) returns (lacked: set<Lack>)
    requires WellFormed(c) && Clean(catalog)
    ensures forall l :: l in lacked <==> exists i :: 0 <= i < |c.units| && LackedBy(catalog, c, c.units[i], l)
    ensures |lacked| == MissingValues(catalog, c.units) + UnfedInputs(c, catalog, c.units)
  {
    lacked := LackedUnits(catalog, c, c.units);
  }

  lemma ReferenceModelIsClean(m: Model)
    requires !m.OtherModel?
    ensures var d := ReferenceDescriptor(m);
      NoRepeat(d.requiredParameters) && NoRepeat(d.requiredMetadata) && NoRepeat(PortIds(d.ports))
  {
    var d := ReferenceDescriptor(m);
    forall i, j | 0 <= i < j < |d.ports| ensures d.ports[i].id != d.ports[j].id { }
  }

  lemma ReferenceIsClean()
    ensures Clean(ReferenceCatalog())
  {
    hide NoRepeat, PortIds, ReferenceDescriptor;
    forall m: Model | !m.OtherModel? { ReferenceModelIsClean(m); }
  }
}
