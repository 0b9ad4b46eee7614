/** Overall mass and energy conservation of a complete run, for every valid flowsheet. */
module Conservation {
  import opened Wrappers
  import opened Numerics
  import opened Properties
  import opened Models
  import opened Catalogue
  import opened Balances
  import opened Digraph
  import opened Compiler
  import opened Runner
  import opened Sums
  import opened SecondLaw

  function ModelOf(c: Case, id: Id): Model
    requires Defined(c.units, id)
  {
    Definition(c.units, id).model
  }

  // ---- Wiring of a valid case -----------------------------------------------------------

  lemma KnownInRunnable(c: Case, id: Id)
    requires Runnable(c) && Defined(c.units, id)
    ensures KnownUnit(c, id)
  {
    var u := Definition(c.units, id);
    var l :| 0 <= l < |c.units| && c.units[l] == u;
    assert UnitComplete(ReferenceCatalog(), c.units[l]);
  }

  /** What a connection of a valid case joins: a material outlet and an inlet. */
  lemma ConnectionJoins(c: Case, k: Connection)
    requires Runnable(c) && k in c.connections
    ensures KnownUnit(c, k.source) && KnownUnit(c, k.target)
    ensures exists p :: p in Inlets(ModelOf(c, k.target)) && p.id == k.targetPort
    ensures exists p :: p in Outlets(ModelOf(c, k.source)) && p.id == k.sourcePort && p.kind == Material
    ensures (k.source, k.target) in FlowGraph(ReferenceCatalog(), c.units, c.connections).edges
  {
    hide Cyclic;
    var i :| 0 <= i < |c.connections| && c.connections[i] == k;
    assert Wired(ReferenceCatalog(), c.units, c.connections[i]);
    KnownInRunnable(c, k.source);
    KnownInRunnable(c, k.target);
    ReferenceShape(ModelOf(c, k.source));
    ReferenceShape(ModelOf(c, k.target));
    var s := PortAt(ReferenceCatalog(), c.units, SourceKey(k)).value;
    var t := PortAt(ReferenceCatalog(), c.units, TargetKey(k)).value;
    assert t in Inlets(ModelOf(c, k.target)) && s in Outlets(ModelOf(c, k.source));
  }

  /** Each inlet of a valid case has a feed, and no other connection uses its source. */
  lemma InletFed(c: Case, id: Id, p: Port)
    requires WellFormed(c) && Runnable(c) && KnownUnit(c, id) && p in Inlets(ModelOf(c, id))
    ensures FeedOf(c.connections, (id, p.id)).Some?
    ensures var k := FeedOf(c.connections, (id, p.id)).value;
            k in c.connections && k.target == id && k.targetPort == p.id
  {
    hide Cyclic, FeedOf;
    var u := Definition(c.units, id);
    var l :| 0 <= l < |c.units| && c.units[l] == u;
    ReferenceShape(u.model);
    assert InputsFed(ReferenceCatalog(), c.units[l], c.connections);
    assert Feeds(c.connections, (id, p.id));
  }

  lemma OutletUnfed(c: Case, id: Id, p: Port)
    requires WellFormed(c) && Runnable(c) && KnownUnit(c, id)
    requires p in ReferenceDescriptor(ModelOf(c, id)).ports && p.direction == Output
    ensures FeedOf(c.connections, (id, p.id)).None?
  {
    hide Cyclic, FeedOf;
    ReferenceShape(ModelOf(c, id));
    var feed := FeedOf(c.connections, (id, p.id));
    if feed.Some? { ConnectionJoins(c, feed.value); }
  }

  lemma SameSource(c: Case, k: Connection, l: Connection)
    requires Runnable(c) && k in c.connections && l in c.connections
    ensures SourceKey(k) == SourceKey(l) ==> k == l
    ensures TargetKey(k) == TargetKey(l) ==> k == l
  {
    hide Cyclic;
    var i :| 0 <= i < |c.connections| && c.connections[i] == k;
    var j :| 0 <= j < |c.connections| && c.connections[j] == l;
    assert SingleUse(c.connections);
  }

  // ---- Ports as keys ----------------------------------------------------------------------

  /** The outlets that feed a unit's inlets, in order. */
  function SourceKeys(c: Case, id: Id): seq<Key>
    requires KnownUnit(c, id)
    requires forall p :: p in Inlets(ModelOf(c, id)) ==> FeedOf(c.connections, (id, p.id)).Some?
  {
    var inlets := Inlets(ModelOf(c, id));
    seq(|inlets|, i requires 0 <= i < |inlets| => SourceKey(FeedOf(c.connections, (id, inlets[i].id)).value))
  }

  function OutletKeys(c: Case, id: Id): seq<Key>
    requires KnownUnit(c, id)
  {
    var outlets := Outlets(ModelOf(c, id));
    seq(|outlets|, i requires 0 <= i < |outlets| => (id, outlets[i].id))
  }

  /** The material value an outputs table holds at a key. */
  function FlowAt(m: Measure, outputs: Outputs, key: Key): real {
    if key in outputs && outputs[key].MaterialValue? then Carried(m, outputs[key].state) else 0.0
  }

  lemma {:induction false} InputsShape(c: Case, outputs: Outputs, id: Id, ports: seq<Port>)
    requires forall p :: p in ports && p.direction == Output ==> FeedOf(c.connections, (id, p.id)).None?
    requires forall p :: p in ports && p.direction == Input ==>
               var feed := FeedOf(c.connections, (id, p.id));
               feed.Some? && SourceKey(feed.value) in outputs
    ensures var inlets, inputs := PortsOf(ports, Input), InputsAt(c, outputs, id, ports);
            && |inputs| == |inlets|
            && forall i :: 0 <= i < |inlets| ==>
                 && FeedOf(c.connections, (id, inlets[i].id)).Some?
                 && SourceKey(FeedOf(c.connections, (id, inlets[i].id)).value) in outputs
                 && inputs[i] == Relabelled(outputs[SourceKey(FeedOf(c.connections, (id, inlets[i].id)).value)],
                   inlets[i].id)
  {
    hide FeedOf;
    if ports != [] {
      var front, last := ports[..|ports| - 1], ports[|ports| - 1];
      assert ports == front + [last];
      InputsShape(c, outputs, id, front);
      PortsOfMembers(front, Input);
      PortsOfMembers(ports, Input);
    }
  }

  lemma {:induction false} MaterialFlowIsSum(m: Measure, outputs: Outputs, values: seq<PortValue>, keys: seq<Key>)
    requires |values| == |keys|
    requires forall i :: 0 <= i < |keys| ==>
      FlowAt(m, outputs, keys[i]) == (if values[i].MaterialValue? then Carried(m, values[i].state) else 0.0)
    ensures MaterialFlow(m, values) == SeqSum(keys, k => FlowAt(m, outputs, k))
  {
    hide Carried;
    if values != [] {
      MaterialFlowIsSum(m, outputs, values[1..], keys[1..]);
    }
  }

  // ---- The outputs table ----------------------------------------------------------------

  predicate PortAmong(values: seq<PortValue>, port: PortId) {
    exists j :: 0 <= j < |values| && values[j].port == port
  }

  predicate DistinctValues(values: seq<PortValue>) {
    forall i, j :: 0 <= i < j < |values| ==> values[i].port != values[j].port
  }

  lemma PortAmongStep(values: seq<PortValue>, port: PortId)
    requires values != []
    ensures PortAmong(values, port) <==> PortAmong(values[..|values| - 1], port) || values[|values| - 1].port == port
  {
    var n := |values| - 1;
    if PortAmong(values[..n], port) {
      var j :| 0 <= j < n && values[..n][j].port == port;
      assert values[j].port == port;
    }
    if PortAmong(values, port) {
      var j :| 0 <= j < |values| && values[j].port == port;
      assert j < n ==> values[..n][j].port == port;
    }
  }

  lemma {:induction false} StoredKeys(outputs: Outputs, id: Id, values: seq<PortValue>, key: Key)
    ensures key in Stored(outputs, id, values) <==> key in outputs || (key.0 == id && PortAmong(values, key.1))
    ensures key in outputs && key.0 != id ==> Stored(outputs, id, values)[key] == outputs[key]
  {
    if values != [] {
      StoredKeys(outputs, id, values[..|values| - 1], key);
      PortAmongStep(values, key.1);
    }
  }

  lemma {:induction false} StoredValue(outputs: Outputs, id: Id, values: seq<PortValue>, j: nat)
    requires DistinctValues(values) && j < |values|
    ensures (id, values[j].port) in Stored(outputs, id, values)
    ensures Stored(outputs, id, values)[(id, values[j].port)] == values[j]
  {
    var n := |values| - 1;
    if j < n {
      assert values[..n][j] == values[j];
      StoredValue(outputs, id, values[..n], j);
    }
  }

  // ---- A complete run ---------------------------------------------------------------------

  ghost predicate Ran(c: Case, services: Services, evaluations: seq<Evaluation>) {
    && WellFormed(c) && Runnable(c)
    && SolvedPrefix(c, services, RunOrder(c), evaluations)
  }

  lemma RunOrderFacts(c: Case)
    requires Runnable(c)
    ensures Permutes(RunOrder(c), UnitIds(c.units))
    ensures Forward(FlowGraph(ReferenceCatalog(), c.units, c.connections), RunOrder(c))
  {
    hide Wired, Cyclic;
    FlowGraphClosed(ReferenceCatalog(), c);
    SortedIffAcyclic(FlowGraph(ReferenceCatalog(), c.units, c.connections));
    LeastOrderSound(FlowGraph(ReferenceCatalog(), c.units, c.connections), UnitIds(c.units));
  }

  /** A feed comes from a unit evaluated earlier. */
  lemma SourceEarlier(c: Case, k: Connection, n: nat) returns (i: nat)
    requires Runnable(c) && k in c.connections && n < |RunOrder(c)| && k.target == RunOrder(c)[n]
    ensures i < n && RunOrder(c)[i] == k.source
  {
    hide Cyclic, LeastOrder, Wired;
    RunOrderFacts(c);
    ConnectionJoins(c, k);
    FlowGraphClosed(ReferenceCatalog(), c);
    assert k.source in UnitIds(c.units);
    i :| 0 <= i < |RunOrder(c)| && RunOrder(c)[i] == k.source;
  }

  /** The key is a declared outlet of the unit. */
  predicate Supplies(c: Case, id: Id, key: Key)
    requires KnownUnit(c, id)
  {
    key.0 == id && exists j :: 0 <= j < |Outlets(ModelOf(c, id))| && Outlets(ModelOf(c, id))[j].id == key.1
  }

  ghost predicate SuppliedBy(c: Case, evaluations: seq<Evaluation>, n: nat, key: Key)
    requires n <= |evaluations| && forall i :: 0 <= i < n ==> KnownUnit(c, evaluations[i].unit)
  {
    exists i :: 0 <= i < n && Supplies(c, evaluations[i].unit, key)
  }

  /** After `n` evaluations the table holds exactly the declared outlets of those units,
      each with the value the unit put out. */
  ghost predicate Tabled(c: Case, evaluations: seq<Evaluation>, n: nat, outputs: Outputs)
    requires n <= |evaluations|
  {
    && (forall i :: 0 <= i < n ==>
          KnownUnit(c, evaluations[i].unit) && Fills(evaluations[i].outputs, Outlets(ModelOf(c, evaluations[i].unit))))
    && (forall key :: key in outputs ==> SuppliedBy(c, evaluations, n, key))
    && (forall i, j :: 0 <= i < n && 0 <= j < |evaluations[i].outputs| ==>
          var key := (evaluations[i].unit, evaluations[i].outputs[j].port);
          key in outputs && outputs[key] == evaluations[i].outputs[j])
  }

  lemma OutletInTable(c: Case, evaluations: seq<Evaluation>, n: nat, outputs: Outputs, i: nat, p: Port)
    requires n <= |evaluations| && Tabled(c, evaluations, n, outputs) && i < n
    requires p in Outlets(ModelOf(c, evaluations[i].unit))
    ensures (evaluations[i].unit, p.id) in outputs
    ensures outputs[(evaluations[i].unit, p.id)].MaterialValue? <==> p.kind == Material
  {
    var outlets := Outlets(ModelOf(c, evaluations[i].unit));
    var j :| 0 <= j < |outlets| && outlets[j] == p;
    assert evaluations[i].outputs[j].port == p.id;
  }

  /** With the table of the first `n` units, the inputs of the next one fill its inlets
      with material, each read at its source key. */
  lemma InputsReady(c: Case, services: Services, evaluations: seq<Evaluation>, n: nat, outputs: Outputs)
    requires Ran(c, services, evaluations) && n < |evaluations| && Tabled(c, evaluations, n, outputs)
    ensures var u := Definition(c.units, RunOrder(c)[n]);
            && KnownUnit(c, RunOrder(c)[n])
            && Fills(InputsOf(c, outputs, u), Inlets(u.model))
            && (forall p :: p in Inlets(u.model) ==> FeedOf(c.connections, (u.id, p.id)).Some?)
            && forall i :: 0 <= i < |Inlets(u.model)| ==>
                 var key := SourceKeys(c, u.id)[i];
                 && key in outputs && outputs[key].MaterialValue?
                 && InputsOf(c, outputs, u)[i] == Relabelled(outputs[key], Inlets(u.model)[i].id)
  {
    hide Cyclic, LeastOrder, Wired, Tabled, Ran, Evaluate, ReferenceDescriptor, FeedOf, InputsAt, PortsOf;
    RanFacts(c, services, evaluations, n);
    var id := RunOrder(c)[n];
    var u := Definition(c.units, id);
    var ports := ReferenceDescriptor(u.model).ports;
    ReferenceShape(u.model);
    forall p | p in ports && p.direction == Output ensures FeedOf(c.connections, (id, p.id)).None? {
      OutletUnfed(c, id, p);
    }
    forall p | p in ports && p.direction == Input
      ensures var feed := FeedOf(c.connections, (id, p.id));
              feed.Some? && SourceKey(feed.value) in outputs && outputs[SourceKey(feed.value)].MaterialValue?
    {
      InletReady(c, services, evaluations, n, outputs, p);
    }
    InputsShape(c, outputs, id, ports);
  }

  lemma RanFacts(c: Case, services: Services, evaluations: seq<Evaluation>, n: nat)
    requires Ran(c, services, evaluations) && n < |evaluations|
    ensures WellFormed(c) && Runnable(c) && n < |RunOrder(c)|
    ensures KnownUnit(c, RunOrder(c)[n]) && evaluations[n].unit == RunOrder(c)[n]
    ensures Definition(c.units, RunOrder(c)[n]).id == RunOrder(c)[n]
    ensures StepOutcome(c, services, evaluations[..n], RunOrder(c)[n]) == Success(evaluations[n])
  {
    hide LeastOrder, StepOutcome, Runnable;
    SolvedUnits(c, services, RunOrder(c), evaluations);
  }

  lemma InletReady(c: Case, services: Services, evaluations: seq<Evaluation>, n: nat, outputs: Outputs, p: Port)
    requires Ran(c, services, evaluations) && n < |evaluations| && Tabled(c, evaluations, n, outputs)
    requires KnownUnit(c, RunOrder(c)[n]) && p in Inlets(ModelOf(c, RunOrder(c)[n]))
    ensures var feed := FeedOf(c.connections, (RunOrder(c)[n], p.id));
            feed.Some? && SourceKey(feed.value) in outputs && outputs[SourceKey(feed.value)].MaterialValue?
  {
    hide Cyclic, LeastOrder, Wired, Evaluate, Tabled, FeedOf, Inlets, Outlets;
    InletFed(c, RunOrder(c)[n], p);
    var k := FeedOf(c.connections, (RunOrder(c)[n], p.id)).value;
    var i := SourceEarlier(c, k, n);
    SolvedUnits(c, services, RunOrder(c), evaluations);
    ConnectionJoins(c, k);
    var q :| q in Outlets(ModelOf(c, k.source)) && q.id == k.sourcePort && q.kind == Material;
    OutletInTable(c, evaluations, n, outputs, i, q);
  }

  lemma UnitsDiffer(c: Case, services: Services, evaluations: seq<Evaluation>, i: nat, n: nat)
    requires Ran(c, services, evaluations) && i < n < |evaluations|
    ensures evaluations[i].unit != evaluations[n].unit
  {
    hide LeastOrder, StepOutcome, Runnable;
    RunOrderFacts(c);
    SolvedUnits(c, services, RunOrder(c), evaluations);
  }

  /** The next evaluation fills its declared outlets and extends the table by them. */
  lemma TableGrows(c: Case, services: Services, evaluations: seq<Evaluation>, n: nat)
    requires Ran(c, services, evaluations) && n < |evaluations|
    requires Tabled(c, evaluations, n, OutputsOf(evaluations[..n]))
    ensures Tabled(c, evaluations, n + 1, OutputsOf(evaluations[..n + 1]))
    ensures var u := Definition(c.units, evaluations[n].unit);
            && Fills(InputsOf(c, OutputsOf(evaluations[..n]), u), Inlets(u.model))
            && Evaluate(u, services, InputsOf(c, OutputsOf(evaluations[..n]), u)) == Success(evaluations[n])
  {
    hide LeastOrder, Runnable, Evaluate, InputsAt, MaterialFlow, DutyFlow, Tabled, Outlets, Inlets, FeedOf,
         SourceKeys, ReferenceDescriptor;
    var before := OutputsOf(evaluations[..n]);
    RanFacts(c, services, evaluations, n);
    InputsReady(c, services, evaluations, n, before);
    var u := Definition(c.units, RunOrder(c)[n]);
    UnitBalance(Mass, u, services, InputsOf(c, before, u));
    assert evaluations[..n + 1][..n] == evaluations[..n];
    var e := evaluations[n];
    ReferenceShape(u.model);
    forall i | 0 <= i < n ensures evaluations[i].unit != e.unit { UnitsDiffer(c, services, evaluations, i, n); }
    StoredIsTabled(c, evaluations, n, before);
  }

  lemma StoredIsTabled(c: Case, evaluations: seq<Evaluation>, n: nat, before: Outputs)
    requires n < |evaluations| && Tabled(c, evaluations, n, before)
    requires KnownUnit(c, evaluations[n].unit)
    requires Fills(evaluations[n].outputs, Outlets(ModelOf(c, evaluations[n].unit)))
    requires DistinctPorts(Outlets(ModelOf(c, evaluations[n].unit)))
    requires forall i :: 0 <= i < n ==> evaluations[i].unit != evaluations[n].unit
    ensures Tabled(c, evaluations, n + 1, Stored(before, evaluations[n].unit, evaluations[n].outputs))
  {
    hide Outlets, Stored, Supplies;
    var e := evaluations[n];
    var after := Stored(before, e.unit, e.outputs);
    forall key | key in after ensures SuppliedBy(c, evaluations, n + 1, key) {
      StoredKeys(before, e.unit, e.outputs, key);
      if key in before {
        var i :| 0 <= i < n && Supplies(c, evaluations[i].unit, key);
      } else {
        FilledSupplies(c, e, key);
        assert Supplies(c, evaluations[n].unit, key);
      }
    }
    forall i, j | 0 <= i < n + 1 && 0 <= j < |evaluations[i].outputs|
      ensures var key := (evaluations[i].unit, evaluations[i].outputs[j].port);
              key in after && after[key] == evaluations[i].outputs[j]
    {
      if i < n { StoredKeys(before, e.unit, e.outputs, (evaluations[i].unit, evaluations[i].outputs[j].port)); }
      else { StoredValue(before, e.unit, e.outputs, j); }
    }
  }

  lemma FilledSupplies(c: Case, e: Evaluation, key: Key)
    requires KnownUnit(c, e.unit) && Fills(e.outputs, Outlets(ModelOf(c, e.unit)))
    requires key.0 == e.unit && PortAmong(e.outputs, key.1)
    ensures Supplies(c, e.unit, key)
  {
    hide Outlets;
    var j :| 0 <= j < |e.outputs| && e.outputs[j].port == key.1;
    assert Outlets(ModelOf(c, e.unit))[j].id == key.1;
  }

  lemma {:induction false} RunTabled(c: Case, services: Services, evaluations: seq<Evaluation>, n: nat)
    requires Ran(c, services, evaluations) && n <= |evaluations|
    ensures Tabled(c, evaluations, n, OutputsOf(evaluations[..n]))
  {
    hide Ran;
    if n > 0 {
      RunTabled(c, services, evaluations, n - 1);
      TableGrows(c, services, evaluations, n - 1);
    }
  }

  /** A later table agrees with an earlier one. */
  lemma TablesAgree(c: Case, evaluations: seq<Evaluation>, n: nat, early: Outputs, late: Outputs, key: Key)
    requires n <= |evaluations| && Tabled(c, evaluations, n, early)
    requires Tabled(c, evaluations, |evaluations|, late) && key in early
    ensures key in late && late[key] == early[key]
  {
    var i :| 0 <= i < n && Supplies(c, evaluations[i].unit, key);
    var j :| 0 <= j < |Outlets(ModelOf(c, evaluations[i].unit))|
      && Outlets(ModelOf(c, evaluations[i].unit))[j].id == key.1;
    assert evaluations[i].outputs[j].port == key.1;
  }

  /** A run is a fixed point: every unit's evaluation is also its evaluation from the final
      table of all outputs, whatever the order was. */
  lemma RunIsFixedPoint(c: Case, services: Services, evaluations: seq<Evaluation>, n: nat)
    requires Ran(c, services, evaluations) && n < |evaluations|
    ensures KnownUnit(c, evaluations[n].unit)
    ensures var u := Definition(c.units, evaluations[n].unit);
            && InputsOf(c, OutputsOf(evaluations), u) == InputsOf(c, OutputsOf(evaluations[..n]), u)
            && Evaluate(u, services, InputsOf(c, OutputsOf(evaluations), u)) == Success(evaluations[n])
  {
    hide LeastOrder, Runnable, Evaluate, InputsAt, OutputsOf, Tabled, Ran, Inlets;
    var early, late := OutputsOf(evaluations[..n]), OutputsOf(evaluations);
    assert evaluations[..|evaluations|] == evaluations;
    RanFacts(c, services, evaluations, n);
    RunTabled(c, services, evaluations, n);
    RunTabled(c, services, evaluations, |evaluations|);
    TableGrows(c, services, evaluations, n);
    InputsReady(c, services, evaluations, n, early);
    var u := Definition(c.units, evaluations[n].unit);
    var ports := ReferenceDescriptor(u.model).ports;
    ReferenceShape(u.model);
    forall p | p in ports && p.direction == Output ensures FeedOf(c.connections, (u.id, p.id)).None? {
      OutletUnfed(c, u.id, p);
    }
    forall p | p in ports && p.direction == Input
      ensures var key := SourceKey(FeedOf(c.connections, (u.id, p.id)).value);
              FeedOf(c.connections, (u.id, p.id)).Some? && key in early && key in late && late[key] == early[key]
    {
      InletReady(c, services, evaluations, n, early, p);
      TablesAgree(c, evaluations, n, early, late, SourceKey(FeedOf(c.connections, (u.id, p.id)).value));
    }
    SameInputs(c, early, late, u.id, ports);
  }

  lemma {:induction false} SameInputs(c: Case, early: Outputs, late: Outputs, id: Id, ports: seq<Port>)
    requires forall p :: p in ports && FeedOf(c.connections, (id, p.id)).Some? ==>
      var key := SourceKey(FeedOf(c.connections, (id, p.id)).value);
      key in early && key in late && late[key] == early[key]
    ensures InputsAt(c, late, id, ports) == InputsAt(c, early, id, ports)
  {
    hide FeedOf;
    if ports != [] {
      var front, last := ports[..|ports| - 1], ports[|ports| - 1];
      assert ports == front + [last];
      SameInputs(c, early, late, id, front);
    }
  }

  // ---- Conservation -----------------------------------------------------------------------

  /** The unit takes one of its inputs from the outlet. */
  predicate Consumes(c: Case, id: Id, key: Key)
    requires KnownUnit(c, id)
  {
    exists i :: 0 <= i < |Inlets(ModelOf(c, id))|
      && FeedOf(c.connections, (id, Inlets(ModelOf(c, id))[i].id)).Some?
      && SourceKey(FeedOf(c.connections, (id, Inlets(ModelOf(c, id))[i].id)).value) == key
  }

  /** The outlets produced by the first `n` evaluated units and used by none of them. */
  ghost function Pending(c: Case, evaluations: seq<Evaluation>, n: nat): set<Key>
    requires n <= |evaluations| && forall i :: 0 <= i < n ==> KnownUnit(c, evaluations[i].unit)
  {
    set key | key in OutputsOf(evaluations[..n])
              && forall i :: 0 <= i < n ==> !Consumes(c, evaluations[i].unit, key)
  }

  lemma RanKnown(c: Case, services: Services, evaluations: seq<Evaluation>)
    requires Ran(c, services, evaluations)
    ensures forall i :: 0 <= i < |evaluations| ==> KnownUnit(c, evaluations[i].unit)
    ensures forall e :: e in evaluations ==> Defined(c.units, e.unit)
  {
    hide LeastOrder, StepOutcome, Runnable;
    SolvedUnits(c, services, RunOrder(c), evaluations);
  }

  predicate AllFed(c: Case, id: Id)
    requires KnownUnit(c, id)
  {
    forall p :: p in Inlets(ModelOf(c, id)) ==> FeedOf(c.connections, (id, p.id)).Some?
  }

  lemma SourceKeysMembers(c: Case, id: Id)
    requires Runnable(c) && KnownUnit(c, id) && AllFed(c, id)
    ensures Distinct(SourceKeys(c, id))
    ensures forall key :: key in SourceKeys(c, id) <==> Consumes(c, id, key)
  {
    hide Runnable, FeedOf, Inlets;
    var keys, inlets := SourceKeys(c, id), Inlets(ModelOf(c, id));
    ReferenceShape(ModelOf(c, id));
    forall i, j | 0 <= i < j < |keys| ensures keys[i] != keys[j] {
      SameFeed(c, id, inlets[i], id, inlets[j]);
    }
    forall key | Consumes(c, id, key) ensures key in keys {
      var i :| 0 <= i < |inlets| && FeedOf(c.connections, (id, inlets[i].id)).Some?
               && SourceKey(FeedOf(c.connections, (id, inlets[i].id)).value) == key;
      assert keys[i] == key;
    }
  }

  lemma OutletKeysMembers(c: Case, id: Id)
    requires KnownUnit(c, id)
    ensures Distinct(OutletKeys(c, id))
    ensures forall key :: key in OutletKeys(c, id) <==> Supplies(c, id, key)
  {
    hide Outlets;
    ReferenceShape(ModelOf(c, id));
    var keys, outlets := OutletKeys(c, id), Outlets(ModelOf(c, id));
    forall key | Supplies(c, id, key) ensures key in keys {
      var j :| 0 <= j < |outlets| && outlets[j].id == key.1;
      assert keys[j] == key;
    }
  }

  /** Different units never share a source. */
  lemma ConsumedOnce(c: Case, a: Id, b: Id, key: Key)
    requires Runnable(c) && KnownUnit(c, a) && KnownUnit(c, b) && Consumes(c, a, key) && Consumes(c, b, key)
    ensures a == b
  {
    hide Runnable, FeedOf, Inlets;
    var i :| 0 <= i < |Inlets(ModelOf(c, a))| && FeedOf(c.connections, (a, Inlets(ModelOf(c, a))[i].id)).Some?
             && SourceKey(FeedOf(c.connections, (a, Inlets(ModelOf(c, a))[i].id)).value) == key;
    var j :| 0 <= j < |Inlets(ModelOf(c, b))| && FeedOf(c.connections, (b, Inlets(ModelOf(c, b))[j].id)).Some?
             && SourceKey(FeedOf(c.connections, (b, Inlets(ModelOf(c, b))[j].id)).value) == key;
    SameFeed(c, a, Inlets(ModelOf(c, a))[i], b, Inlets(ModelOf(c, b))[j]);
  }

  /** The sources of the next unit's inlets are all still pending. */
  lemma SourcesPending(c: Case, services: Services, evaluations: seq<Evaluation>, n: nat)
    requires Ran(c, services, evaluations) && n < |evaluations|
    ensures forall i :: 0 <= i < |evaluations| ==> KnownUnit(c, evaluations[i].unit)
    ensures AllFed(c, evaluations[n].unit)
    ensures forall key :: Consumes(c, evaluations[n].unit, key) ==> key in Pending(c, evaluations, n)
  {
    hide LeastOrder, Runnable, StepOutcome, Tabled, Ran, ReferenceDescriptor, PortsOf, FeedOf, InputsAt, OutputsOf,
         Consumes, Inlets;
    RanKnown(c, services, evaluations);
    RunTabled(c, services, evaluations, n);
    RanFacts(c, services, evaluations, n);
    InputsReady(c, services, evaluations, n, OutputsOf(evaluations[..n]));
    var id := evaluations[n].unit;
    SourceKeysMembers(c, id);
    forall key | Consumes(c, id, key) ensures key in Pending(c, evaluations, n) {
      var j :| 0 <= j < |SourceKeys(c, id)| && SourceKeys(c, id)[j] == key;
      assert key in OutputsOf(evaluations[..n]);
      forall i | 0 <= i < n ensures !Consumes(c, evaluations[i].unit, key) {
        UnitsDiffer(c, services, evaluations, i, n);
        if Consumes(c, evaluations[i].unit, key) { ConsumedOnce(c, evaluations[i].unit, id, key); }
      }
    }
  }

  /** Two inlets with one source are the same inlet. */
  lemma SameFeed(c: Case, a: Id, p: Port, b: Id, q: Port)
    requires Runnable(c)
    requires FeedOf(c.connections, (a, p.id)).Some? && FeedOf(c.connections, (b, q.id)).Some?
    ensures SourceKey(FeedOf(c.connections, (a, p.id)).value) == SourceKey(FeedOf(c.connections, (b, q.id)).value)
       ==> a == b && p.id == q.id
  {
    hide Runnable;
    SameSource(c, FeedOf(c.connections, (a, p.id)).value, FeedOf(c.connections, (b, q.id)).value);
  }

  lemma TableKeys(c: Case, evaluations: seq<Evaluation>, n: nat, outputs: Outputs, key: Key)
    requires n <= |evaluations| && Tabled(c, evaluations, n, outputs)
    ensures key in outputs <==> SuppliedBy(c, evaluations, n, key)
  {
    hide Outlets;
    if SuppliedBy(c, evaluations, n, key) {
      var i :| 0 <= i < n && Supplies(c, evaluations[i].unit, key);
      var outlets := Outlets(ModelOf(c, evaluations[i].unit));
      var j :| 0 <= j < |outlets| && outlets[j].id == key.1;
      assert evaluations[i].outputs[j].port == key.1;
    }
  }

  /** What evaluating one more unit does to the pending outlets. */
  lemma PendingStep(c: Case, services: Services, evaluations: seq<Evaluation>, n: nat)
    requires Ran(c, services, evaluations) && n < |evaluations|
    ensures forall i :: 0 <= i < |evaluations| ==> KnownUnit(c, evaluations[i].unit)
    ensures forall key :: key in Pending(c, evaluations, n + 1) <==>
              || (key in Pending(c, evaluations, n) && !Consumes(c, evaluations[n].unit, key))
              || Supplies(c, evaluations[n].unit, key)
    ensures forall key :: Supplies(c, evaluations[n].unit, key) ==> key !in Pending(c, evaluations, n)
  {
    hide LeastOrder, Runnable, StepOutcome, Ran, ReferenceDescriptor, PortsOf, FeedOf, InputsAt, OutputsOf, Consumes,
         Tabled, Outlets;
    RanKnown(c, services, evaluations);
    RunTabled(c, services, evaluations, n);
    RunTabled(c, services, evaluations, n + 1);
    var id := evaluations[n].unit;
    var before, after := OutputsOf(evaluations[..n]), OutputsOf(evaluations[..n + 1]);
    forall i | 0 <= i < n ensures evaluations[i].unit != id { UnitsDiffer(c, services, evaluations, i, n); }
    forall key ensures key in before <==> SuppliedBy(c, evaluations, n, key) {
      TableKeys(c, evaluations, n, before, key);
    }
    forall key ensures key in after <==> key in before || Supplies(c, id, key) {
      TableKeys(c, evaluations, n + 1, after, key);
      if Supplies(c, id, key) { assert SuppliedBy(c, evaluations, n + 1, key); }
      if key in before {
        var i :| 0 <= i < n && Supplies(c, evaluations[i].unit, key);
        assert SuppliedBy(c, evaluations, n + 1, key);
      }
    }
    forall key, i | Supplies(c, id, key) && 0 <= i <= n ensures !Consumes(c, evaluations[i].unit, key) {
      NotYetConsumed(c, services, evaluations, n, i, key);
    }
  }

  /** No unit up to the `n`th takes an input from the `n`th. */
  lemma NotYetConsumed(c: Case, services: Services, evaluations: seq<Evaluation>, n: nat, i: nat, key: Key)
    requires Ran(c, services, evaluations) && i <= n < |evaluations|
    requires KnownUnit(c, evaluations[i].unit) && key.0 == evaluations[n].unit
    ensures !Consumes(c, evaluations[i].unit, key)
  {
    hide LeastOrder, Runnable, StepOutcome, FeedOf, Inlets;
    SolvedUnits(c, services, RunOrder(c), evaluations);
    RunOrderFacts(c);
    if Consumes(c, evaluations[i].unit, key) {
      var inlets := Inlets(ModelOf(c, evaluations[i].unit));
      var j :| 0 <= j < |inlets| && FeedOf(c.connections, (evaluations[i].unit, inlets[j].id)).Some?
               && SourceKey(FeedOf(c.connections, (evaluations[i].unit, inlets[j].id)).value) == key;
      var source := SourceEarlier(c, FeedOf(c.connections, (evaluations[i].unit, inlets[j].id)).value, i);
    }
  }

  /** The measured balance of the first `n` evaluations: what the sources and the equipment
      put in, less what the sinks took. */
  function BalanceUpTo(m: Measure, c: Case, outputs: Outputs, evaluations: seq<Evaluation>, n: nat): real
    requires n <= |evaluations| && forall e :: e in evaluations ==> Defined(c.units, e.unit)
  {
    SourceTotal(m, c.units, evaluations[..n]) + AddedTotal(m, evaluations[..n])
    - SinkTotal(m, c, outputs, evaluations[..n])
  }

  /** One evaluation changes the balance by its outflow less its inflow. */
  lemma BalanceStep(m: Measure, c: Case, services: Services, evaluations: seq<Evaluation>, n: nat)
    requires Ran(c, services, evaluations) && n < |evaluations|
    ensures forall e :: e in evaluations ==> Defined(c.units, e.unit)
    ensures KnownUnit(c, evaluations[n].unit)
    ensures var outputs := OutputsOf(evaluations);
            var u := Definition(c.units, evaluations[n].unit);
            BalanceUpTo(m, c, outputs, evaluations, n + 1) == BalanceUpTo(m, c, outputs, evaluations, n)
              + MaterialFlow(m, evaluations[n].outputs) - MaterialFlow(m, InputsOf(c, outputs, u))
    ensures Fills(InputsOf(c, OutputsOf(evaluations), Definition(c.units, evaluations[n].unit)),
                  Inlets(ModelOf(c, evaluations[n].unit)))
  {
    hide LeastOrder, Runnable, StepOutcome, Ran, OutputsOf, Evaluate, MaterialFlow, DutyFlow, InputsAt, Inlets, Outlets,
         FeedOf, Carried, Tabled, Added;
    RanKnown(c, services, evaluations);
    RunTabled(c, services, evaluations, n);
    TableGrows(c, services, evaluations, n);
    RunIsFixedPoint(c, services, evaluations, n);
    var outputs := OutputsOf(evaluations);
    var u := Definition(c.units, evaluations[n].unit);
    var inputs := InputsOf(c, outputs, u);
    UnitBalance(m, u, services, inputs);
    ReferencePorts(u.model);
    assert evaluations[..n + 1][..n] == evaluations[..n];
    NoFlow(m);
    if u.model == Source { assert inputs == []; }
    if u.model == Sink {
      assert evaluations[n].outputs == [];
      assert ReferenceDescriptor(Sink).ports == [MaterialIn(Inlet)];
    }
  }

  lemma NoFlow(m: Measure)
    ensures MaterialFlow(m, []) == 0.0
  {
  }

  /** The inflow and outflow of one unit as sums over keys of the final table. */
  lemma FlowsAsSums(m: Measure, c: Case, services: Services, evaluations: seq<Evaluation>, n: nat)
    requires Ran(c, services, evaluations) && n < |evaluations|
    ensures KnownUnit(c, evaluations[n].unit) && AllFed(c, evaluations[n].unit)
    ensures var outputs := OutputsOf(evaluations);
            var flow := (k: Key) => FlowAt(m, outputs, k);
            var u := Definition(c.units, evaluations[n].unit);
            && MaterialFlow(m, InputsOf(c, outputs, u)) == SeqSum(SourceKeys(c, u.id), flow)
            && MaterialFlow(m, evaluations[n].outputs) == SeqSum(OutletKeys(c, u.id), flow)
  {
    hide LeastOrder, Runnable, StepOutcome, Ran, OutputsOf, Evaluate, MaterialFlow, InputsAt, Inlets, Outlets, FeedOf,
         Carried, Tabled;
    var early, outputs := OutputsOf(evaluations[..n]), OutputsOf(evaluations);
    assert evaluations[..|evaluations|] == evaluations;
    RanFacts(c, services, evaluations, n);
    RunTabled(c, services, evaluations, n);
    RunTabled(c, services, evaluations, |evaluations|);
    InputsReady(c, services, evaluations, n, early);
    RunIsFixedPoint(c, services, evaluations, n);
    var id := evaluations[n].unit;
    var u := Definition(c.units, id);
    var inputs, keys := InputsOf(c, outputs, u), SourceKeys(c, id);
    forall i | 0 <= i < |keys|
      ensures FlowAt(m, outputs, keys[i]) == (if inputs[i].MaterialValue? then Carried(m, inputs[i].state) else 0.0)
    {
      TablesAgree(c, evaluations, n, early, outputs, keys[i]);
    }
    MaterialFlowIsSum(m, outputs, inputs, keys);
    OutletFlows(m, c, evaluations, outputs, n);
  }

  lemma OutletFlows(m: Measure, c: Case, evaluations: seq<Evaluation>, outputs: Outputs, n: nat)
    requires n < |evaluations| && Tabled(c, evaluations, |evaluations|, outputs)
    ensures MaterialFlow(m, evaluations[n].outputs)
         == SeqSum(OutletKeys(c, evaluations[n].unit), k => FlowAt(m, outputs, k))
  {
    hide MaterialFlow, Outlets, Carried;
    var values, keys := evaluations[n].outputs, OutletKeys(c, evaluations[n].unit);
    forall j | 0 <= j < |keys|
      ensures FlowAt(m, outputs, keys[j]) == (if values[j].MaterialValue? then Carried(m, values[j].state) else 0.0)
    {
      assert keys[j] == (evaluations[n].unit, values[j].port);
    }
    MaterialFlowIsSum(m, outputs, values, keys);
  }

  /** Conservation at every moment of a run: what the sources and the equipment have put in
      less what the sinks have taken is exactly what stands in the pending outlets. */
  lemma {:induction false} ConservedSoFar(m: Measure, c: Case, services: Services, evaluations: seq<Evaluation>, n: nat)
    requires Ran(c, services, evaluations) && n <= |evaluations|
    ensures forall e :: e in evaluations ==> Defined(c.units, e.unit)
    ensures forall i :: 0 <= i < |evaluations| ==> KnownUnit(c, evaluations[i].unit)
    ensures BalanceUpTo(m, c, OutputsOf(evaluations), evaluations, n)
         == SetSum(Pending(c, evaluations, n), k => FlowAt(m, OutputsOf(evaluations), k))
  {
    hide Ran, MaterialFlow, InputsAt, SourceKeys, OutletKeys, FlowAt, AllFed;
    RanKnown(c, services, evaluations);
    var flow := (k: Key) => FlowAt(m, OutputsOf(evaluations), k);
    if n == 0 {
      assert evaluations[..0] == [];
      assert Pending(c, evaluations, 0) == {};
    } else {
      ConservedSoFar(m, c, services, evaluations, n - 1);
      BalanceStep(m, c, services, evaluations, n - 1);
      FlowsAsSums(m, c, services, evaluations, n - 1);
      PendingSums(m, c, services, evaluations, n - 1, flow);
    }
  }

  lemma PendingSums(m: Measure, c: Case, services: Services, evaluations: seq<Evaluation>, n: nat, flow: Key -> real)
    requires Ran(c, services, evaluations) && n < |evaluations|
    ensures forall i :: 0 <= i < |evaluations| ==> KnownUnit(c, evaluations[i].unit)
    ensures AllFed(c, evaluations[n].unit)
    ensures SetSum(Pending(c, evaluations, n + 1), flow)
         == SetSum(Pending(c, evaluations, n), flow)
          - SeqSum(SourceKeys(c, evaluations[n].unit), flow) + SeqSum(OutletKeys(c, evaluations[n].unit), flow)
  {
    hide Ran, SourceKeys, OutletKeys, Consumes, Supplies, Pending, Runnable;
    RanKnown(c, services, evaluations);
    assert Runnable(c) by { RanRunnable(c, services, evaluations); }
    SourcesPending(c, services, evaluations, n);
    PendingStep(c, services, evaluations, n);
    var id := evaluations[n].unit;
    SourceKeysMembers(c, id);
    OutletKeysMembers(c, id);
    var before, after := Pending(c, evaluations, n), Pending(c, evaluations, n + 1);
    var used, made := Elements(SourceKeys(c, id)), Elements(OutletKeys(c, id));
    var rest := before - used;
    assert rest + used == before;
    assert rest + made == after;
    SetSumAdd(rest, SourceKeys(c, id), flow);
    SetSumAdd(rest, OutletKeys(c, id), flow);
  }

  lemma RanRunnable(c: Case, services: Services, evaluations: seq<Evaluation>)
    requires Ran(c, services, evaluations)
    ensures Runnable(c)
  {
  }

  // ---- The theorem ------------------------------------------------------------------------

  predicate Unused(c: Case, key: Key) {
    forall i :: 0 <= i < |c.connections| ==> SourceKey(c.connections[i]) != key
  }

  /** The declared outlets that no connection leaves from. */
  ghost predicate IsDangling(c: Case, key: Key) {
    KnownUnit(c, key.0) && Supplies(c, key.0, key) && Unused(c, key)
  }

  ghost predicate Complete(c: Case, services: Services, evaluations: seq<Evaluation>) {
    Ran(c, services, evaluations) && |evaluations| == |RunOrder(c)|
  }

  ghost function DanglingOutlets(c: Case, evaluations: seq<Evaluation>): set<Key> {
    set key | key in OutputsOf(evaluations) && IsDangling(c, key)
  }

  lemma EveryUnitRan(c: Case, services: Services, evaluations: seq<Evaluation>, id: Id) returns (i: nat)
    requires Complete(c, services, evaluations) && KnownUnit(c, id)
    ensures i < |evaluations| && evaluations[i].unit == id
  {
    hide LeastOrder, Runnable, StepOutcome;
    SolvedUnits(c, services, RunOrder(c), evaluations);
    RunOrderFacts(c);
    assert id in UnitIds(c.units);
    i :| 0 <= i < |RunOrder(c)| && RunOrder(c)[i] == id;
  }

  lemma UsedIsConsumed(c: Case, services: Services, evaluations: seq<Evaluation>, k: Connection)
    requires Complete(c, services, evaluations) && k in c.connections
    ensures exists i :: 0 <= i < |evaluations| && KnownUnit(c, evaluations[i].unit)
                        && Consumes(c, evaluations[i].unit, SourceKey(k))
  {
    hide LeastOrder, Runnable, StepOutcome, FeedOf, Inlets;
    ConnectionJoins(c, k);
    var i := EveryUnitRan(c, services, evaluations, k.target);
    var inlets := Inlets(ModelOf(c, k.target));
    var p :| p in inlets && p.id == k.targetPort;
    var j :| 0 <= j < |inlets| && inlets[j] == p;
    InletFed(c, k.target, p);
    SameSource(c, FeedOf(c.connections, (k.target, p.id)).value, k);
    assert Consumes(c, evaluations[i].unit, SourceKey(k));
  }

  /** When every unit has run, the pending outlets are the dangling ones. */
  lemma PendingIsDangling(c: Case, services: Services, evaluations: seq<Evaluation>)
    requires Complete(c, services, evaluations)
    ensures forall i :: 0 <= i < |evaluations| ==> KnownUnit(c, evaluations[i].unit)
    ensures Pending(c, evaluations, |evaluations|) == DanglingOutlets(c, evaluations)
    ensures forall key :: key in DanglingOutlets(c, evaluations) <==> IsDangling(c, key)
  {
    hide LeastOrder, Runnable, StepOutcome, FeedOf, Inlets, OutputsOf, Ran, Outlets, Supplies, Tabled;
    RanKnown(c, services, evaluations);
    RunTabled(c, services, evaluations, |evaluations|);
    assert evaluations[..|evaluations|] == evaluations;
    var outputs := OutputsOf(evaluations);
    forall key ensures key in outputs <==> KnownUnit(c, key.0) && Supplies(c, key.0, key) {
      TableKeys(c, evaluations, |evaluations|, outputs, key);
      SuppliedIffDeclared(c, services, evaluations, key);
    }
    forall key
      ensures Unused(c, key) <==> forall i :: 0 <= i < |evaluations| ==> !Consumes(c, evaluations[i].unit, key)
    {
      ConsumedIffUsed(c, services, evaluations, key);
    }
  }

  lemma SuppliedIffDeclared(c: Case, services: Services, evaluations: seq<Evaluation>, key: Key)
    requires Complete(c, services, evaluations)
    ensures forall i :: 0 <= i < |evaluations| ==> KnownUnit(c, evaluations[i].unit)
    ensures SuppliedBy(c, evaluations, |evaluations|, key) <==> KnownUnit(c, key.0) && Supplies(c, key.0, key)
  {
    hide Ran, Outlets;
    RanKnown(c, services, evaluations);
    if KnownUnit(c, key.0) && Supplies(c, key.0, key) {
      var i := EveryUnitRan(c, services, evaluations, key.0);
      assert Supplies(c, evaluations[i].unit, key);
    }
  }

  lemma ConsumedIffUsed(c: Case, services: Services, evaluations: seq<Evaluation>, key: Key)
    requires Complete(c, services, evaluations)
    ensures forall i :: 0 <= i < |evaluations| ==> KnownUnit(c, evaluations[i].unit)
    ensures Unused(c, key) <==> forall i :: 0 <= i < |evaluations| ==> !Consumes(c, evaluations[i].unit, key)
  {
    hide Ran, Inlets, FeedOf;
    RanKnown(c, services, evaluations);
    if j :| 0 <= j < |c.connections| && SourceKey(c.connections[j]) == key {
      UsedIsConsumed(c, services, evaluations, c.connections[j]);
    }
  }

  /** The overall balances of every complete run: the mass residual is the mass flow, and
      the energy residual the enthalpy flow, on the outlets nothing is connected to. */
  lemma OverallConservation(c: Case, services: Services, evaluations: seq<Evaluation>)
    requires Complete(c, services, evaluations)
    ensures forall e :: e in evaluations ==> Defined(c.units, e.unit)
    ensures forall key :: key in DanglingOutlets(c, evaluations) <==> IsDangling(c, key)
    ensures ReportedBalances(c, evaluations).0.residual
         == SetSum(DanglingOutlets(c, evaluations), k => FlowAt(Mass, OutputsOf(evaluations), k))
    ensures ReportedBalances(c, evaluations).1.residual
         == SetSum(DanglingOutlets(c, evaluations), k => FlowAt(Heat, OutputsOf(evaluations), k))
  {
    hide Ran, OutputsOf, FlowAt, Pending, SourceTotal, SinkTotal, Max, DanglingOutlets, IsDangling;
    assert evaluations[..|evaluations|] == evaluations;
    ConservedSoFar(Mass, c, services, evaluations, |evaluations|);
    ConservedSoFar(Heat, c, services, evaluations, |evaluations|);
    PendingIsDangling(c, services, evaluations);
    NoMassAdded(evaluations);
  }

  lemma {:induction false} NoMassAdded(evaluations: seq<Evaluation>)
    ensures AddedTotal(Mass, evaluations) == 0.0
  {
    if evaluations != [] { NoMassAdded(evaluations[..|evaluations| - 1]); }
  }

  lemma {:induction false} SumOfZeros<T(!new)>(s: set<T>, f: T -> real)
    requires forall k :: k in s ==> f(k) == 0.0
    ensures SetSum(s, f) == 0.0
  {
    if s != {} {
      var x :| x in s;
      SumOfZeros(s - {x}, f);
      SetSumRemove(s, f, x);
    }
  }

  /** Every material outlet of the case has a connection. */
  ghost predicate FullyWired(c: Case) {
    forall id, p :: KnownUnit(c, id) && p in Outlets(ModelOf(c, id)) && p.kind == Material ==> !Unused(c, (id, p.id))
  }

  lemma EnergyOutletFlow(m: Measure, c: Case, services: Services, evaluations: seq<Evaluation>, key: Key)
    requires Complete(c, services, evaluations) && FullyWired(c) && IsDangling(c, key)
    ensures FlowAt(m, OutputsOf(evaluations), key) == 0.0
  {
    hide LeastOrder, Runnable, StepOutcome, Inlets, OutputsOf, Ran, Outlets, Tabled, Carried;
    RanKnown(c, services, evaluations);
    RunTabled(c, services, evaluations, |evaluations|);
    assert evaluations[..|evaluations|] == evaluations;
    var i := EveryUnitRan(c, services, evaluations, key.0);
    var j :| 0 <= j < |Outlets(ModelOf(c, key.0))| && Outlets(ModelOf(c, key.0))[j].id == key.1;
    OutletInTable(c, evaluations, |evaluations|, OutputsOf(evaluations), i, Outlets(ModelOf(c, key.0))[j]);
  }

  /** With every material outlet wired both residuals are zero and the run closes. */
  lemma FullyWiredCloses(c: Case, services: Services, evaluations: seq<Evaluation>)
    requires Complete(c, services, evaluations) && FullyWired(c)
    ensures forall e :: e in evaluations ==> Defined(c.units, e.unit)
    ensures var (mass, energy) := ReportedBalances(c, evaluations);
            mass.residual == 0.0 && energy.residual == 0.0 && mass.status == Passed && energy.status == Passed
  {
    hide Complete, OutputsOf, FlowAt, SourceTotal, SinkTotal, DanglingOutlets, IsDangling, FullyWired, AddedTotal;
    OverallConservation(c, services, evaluations);
    forall key | key in DanglingOutlets(c, evaluations)
      ensures FlowAt(Mass, OutputsOf(evaluations), key) == 0.0 && FlowAt(Heat, OutputsOf(evaluations), key) == 0.0
    {
      EnergyOutletFlow(Mass, c, services, evaluations, key);
      EnergyOutletFlow(Heat, c, services, evaluations, key);
    }
    SumOfZeros(DanglingOutlets(c, evaluations), k => FlowAt(Mass, OutputsOf(evaluations), k));
    SumOfZeros(DanglingOutlets(c, evaluations), k => FlowAt(Heat, OutputsOf(evaluations), k));
  }

  /** Every material stream of a run is a flashed state, so the exchanger's second law
      speaks of every exchanger in every run. */
  lemma {:induction false} RunStreamsFlashed(c: Case, services: Services, evaluations: seq<Evaluation>, n: nat)
    requires Ran(c, services, evaluations) && n < |evaluations|
    ensures AllFlashed(services.registry, evaluations[n].outputs)
    decreases n
  {
    hide LeastOrder, Runnable, StepOutcome, Ran, Outlets, Evaluate, InputsAt, FeedOf, Flashed, OutputsOf, Tabled,
      Inlets;
    var early := OutputsOf(evaluations[..n]);
    RunTabled(c, services, evaluations, n);
    RanFacts(c, services, evaluations, n);
    TableGrows(c, services, evaluations, n);
    InputsReady(c, services, evaluations, n, early);
    var u := Definition(c.units, evaluations[n].unit);
    var inputs := InputsOf(c, early, u);
    forall i | 0 <= i < |inputs| && inputs[i].MaterialValue? ensures Flashed(services.registry, inputs[i].state) {
      var key := SourceKeys(c, u.id)[i];
      var j, v := TableValue(c, evaluations, n, early, key);
      RunStreamsFlashed(c, services, evaluations, j);
    }
    EvaluationKeepsFlashed(u, services, inputs);
  }

  lemma TableValue(c: Case, evaluations: seq<Evaluation>, n: nat, outputs: Outputs, key: Key) returns (i: nat, j: nat)
    requires n <= |evaluations| && Tabled(c, evaluations, n, outputs) && key in outputs
    ensures i < n && j < |evaluations[i].outputs| && outputs[key] == evaluations[i].outputs[j]
  {
    hide Outlets;
    i :| 0 <= i < n && Supplies(c, evaluations[i].unit, key);
    var outlets := Outlets(ModelOf(c, evaluations[i].unit));
    j :| 0 <= j < |outlets| && outlets[j].id == key.1;
    assert evaluations[i].outputs[j].port == key.1;
  }
}
