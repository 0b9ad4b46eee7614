/** What the edits keep: the wiring, the engineering content, the numbering. */
module PfdWiring {
  import opened Wrappers
  import opened Tags
  import opened Pfd

  /** The stream joins two units from an output to an input of the same kind, and neither port has
      more streams than it may. */
  predicate Joined(c: Catalogue, units: seq<Equipment>, streams: seq<Stream>, s: Stream) {
    var o := PortOf(c, units, s.source, OutPort(s), Output);
    var i := PortOf(c, units, s.target, InPort(s), Input);
    && s.source != s.target
    && o.Some? && i.Some? && o.value.medium == i.value.medium
    && Leaving(streams, s.source, OutPort(s)) <= o.value.maximum
    && Arriving(streams, s.target, InPort(s)) <= i.value.maximum
  }

  predicate Sound(c: Catalogue, units: seq<Equipment>, streams: seq<Stream>) {
    forall k :: 0 <= k < |streams| ==> Joined(c, units, streams, streams[k])
  }

  predicate Wired(p: Policy, d: Document) {
    Sound(p.catalogue, d.units, d.streams)
  }

  /** No port of the catalogue has an empty name. */
  predicate NamedPorts(c: Catalogue) {
    forall m :: m in c ==> forall k :: 0 <= k < |c[m].ports| ==> c[m].ports[k].name != ""
  }

  // ---- Units ----------------------------------------------------------------------------------

  lemma {:induction false} FindUnitAppends(units: seq<Equipment>, u: Equipment, id: Id)
    ensures FindUnit(units + [u], id) ==
      if FindUnit(units, id).Some? then FindUnit(units, id) else if u.id == id then Some(u) else None
    decreases |units|
  {
    if units != [] {
      FindUnitAppends(units[1..], u, id);
      assert (units + [u])[1..] == units[1..] + [u];
    }
  }

  lemma {:induction false} FindUnitFiltered(units: seq<Equipment>, ids: set<Id>, id: Id)
    requires id !in ids
    ensures FindUnit(UnitsWithout(units, ids), id) == FindUnit(units, id)
    decreases |units|
  {
    if units != [] {
      FindUnitFiltered(units[1..], ids, id);
      if units[0].id !in ids {
        assert UnitsWithout(units, ids)[1..] == UnitsWithout(units[1..], ids);
      } else {
        assert UnitsWithout(units, ids) == UnitsWithout(units[1..], ids);
      }
    }
  }

  lemma {:induction false} FindUnitConfigured(units: seq<Equipment>, id: Id, inputs: nat, other: Id)
    ensures var a, b := FindUnit(units, other), FindUnit(WithInputs(units, id, inputs), other);
      (a.None? && b.None?) || (a.Some? && b.Some? && a.value.model == b.value.model)
    decreases |units|
  {
    if units != [] {
      var changed := WithInputs(units, id, inputs);
      if units[0].id == id {
        assert changed[1..] == units[1..] && changed[0].id == id && changed[0].model == units[0].model;
      } else {
        FindUnitConfigured(units[1..], id, inputs, other);
        assert changed[1..] == WithInputs(units[1..], id, inputs) && changed[0] == units[0];
      }
    }
  }

  // ---- Streams --------------------------------------------------------------------------------

  lemma {:induction false} UsesAppend(streams: seq<Stream>, s: Stream, id: Id, name: string)
    ensures Leaving(streams + [s], id, name)
      == Leaving(streams, id, name) + if s.source == id && OutPort(s) == name then 1 else 0
    ensures Arriving(streams + [s], id, name)
      == Arriving(streams, id, name) + if s.target == id && InPort(s) == name then 1 else 0
    decreases |streams|
  {
    if streams != [] {
      UsesAppend(streams[1..], s, id, name);
      assert (streams + [s])[1..] == streams[1..] + [s];
    }
  }

  lemma {:induction false} OccupiedCounts(streams: seq<Stream>, id: Id, name: string)
    ensures Leaving(streams, id, name) <= Occupied(streams, id, name)
    ensures Arriving(streams, id, name) <= Occupied(streams, id, name)
    decreases |streams|
  {
    if streams != [] { OccupiedCounts(streams[1..], id, name); }
  }

  lemma {:induction false} UsesFilter(streams: seq<Stream>, ids: set<Id>, id: Id, name: string)
    ensures Leaving(StreamsWithout(streams, ids), id, name) <= Leaving(streams, id, name)
    ensures Arriving(StreamsWithout(streams, ids), id, name) <= Arriving(streams, id, name)
    decreases |streams|
  {
    if streams != [] {
      UsesFilter(streams[1..], ids, id, name);
      if streams[0].id !in ids {
        assert StreamsWithout(streams, ids)[1..] == StreamsWithout(streams[1..], ids);
      } else {
        assert StreamsWithout(streams, ids) == StreamsWithout(streams[1..], ids);
      }
    }
  }

  lemma {:induction false} FilterKeepsMembers(streams: seq<Stream>, ids: set<Id>, s: Stream)
    ensures s in StreamsWithout(streams, ids) <==> s in streams && s.id !in ids
    decreases |streams|
  {
    if streams != [] { FilterKeepsMembers(streams[1..], ids, s); }
  }

  lemma {:induction false} UsesRelabelled(streams: seq<Stream>, from: Id, to: Id, id: Id, name: string)
    ensures Leaving(Relabelled(streams, from, to), id, name) == Leaving(streams, id, name)
    ensures Arriving(Relabelled(streams, from, to), id, name) == Arriving(streams, id, name)
    decreases |streams|
  {
    if streams != [] {
      UsesRelabelled(streams[1..], from, to, id, name);
      assert Relabelled(streams, from, to)[1..] == Relabelled(streams[1..], from, to);
    }
  }

  // ---- Each change of units or streams --------------------------------------------------------

  lemma AddUnitKeepsSound(c: Catalogue, units: seq<Equipment>, streams: seq<Stream>, u: Equipment)
    requires Sound(c, units, streams)
    ensures Sound(c, units + [u], streams)
  {
    forall k | 0 <= k < |streams| ensures Joined(c, units + [u], streams, streams[k]) {
      var s := streams[k];
      assert Joined(c, units, streams, s);
      FindUnitAppends(units, u, s.source);
      FindUnitAppends(units, u, s.target);
    }
  }

  /** The ends the stream really takes exist, suit each other and have room. */
  predicate EndsFit(c: Catalogue, units: seq<Equipment>, streams: seq<Stream>, s: Stream) {
    var o := PortOf(c, units, s.source, OutPort(s), Output);
    var i := PortOf(c, units, s.target, InPort(s), Input);
    && o.Some? && i.Some? && o.value.medium == i.value.medium
    && Leaving(streams, s.source, OutPort(s)) < o.value.maximum
    && Arriving(streams, s.target, InPort(s)) < i.value.maximum
  }

  lemma AddStreamSoundIff(c: Catalogue, units: seq<Equipment>, streams: seq<Stream>, s: Stream)
    requires Sound(c, units, streams) && s.source != s.target
    ensures Sound(c, units, streams + [s]) <==> EndsFit(c, units, streams, s)
  {
    var all := streams + [s];
    UsesAppend(streams, s, s.source, OutPort(s));
    UsesAppend(streams, s, s.target, InPort(s));
    if EndsFit(c, units, streams, s) {
      forall k | 0 <= k < |all| ensures Joined(c, units, all, all[k]) {
        var t := all[k];
        if k < |streams| { assert t == streams[k] && Joined(c, units, streams, streams[k]); }
        UsesAppend(streams, s, t.source, OutPort(t));
        UsesAppend(streams, s, t.target, InPort(t));
      }
    }
    if Sound(c, units, all) { assert all[|streams|] == s && Joined(c, units, all, all[|streams|]); }
  }

  lemma RemoveKeepsSound(c: Catalogue, units: seq<Equipment>, streams: seq<Stream>, ids: set<Id>)
    requires Sound(c, units, streams)
    requires forall s :: s in streams && (s.source in ids || s.target in ids) ==> s.id in ids
    ensures Sound(c, UnitsWithout(units, ids), StreamsWithout(streams, ids))
  {
    var left := StreamsWithout(streams, ids);
    forall k | 0 <= k < |left| ensures Joined(c, UnitsWithout(units, ids), left, left[k]) {
      var s := left[k];
      FilterKeepsMembers(streams, ids, s);
      var j :| 0 <= j < |streams| && streams[j] == s;
      assert Joined(c, units, streams, streams[j]);
      FindUnitFiltered(units, ids, s.source);
      FindUnitFiltered(units, ids, s.target);
      UsesFilter(streams, ids, s.source, OutPort(s));
      UsesFilter(streams, ids, s.target, InPort(s));
    }
  }

  lemma ConfigureKeepsSound(c: Catalogue, units: seq<Equipment>, streams: seq<Stream>, id: Id, inputs: nat)
    requires Sound(c, units, streams)
    ensures Sound(c, WithInputs(units, id, inputs), streams)
  {
    forall k | 0 <= k < |streams| ensures Joined(c, WithInputs(units, id, inputs), streams, streams[k]) {
      var s := streams[k];
      assert Joined(c, units, streams, s);
      FindUnitConfigured(units, id, inputs, s.source);
      FindUnitConfigured(units, id, inputs, s.target);
    }
  }

  lemma RelabelKeepsSound(c: Catalogue, units: seq<Equipment>, streams: seq<Stream>, from: Id, to: Id)
    requires Sound(c, units, streams)
    ensures Sound(c, units, Relabelled(streams, from, to))
  {
    var named := Relabelled(streams, from, to);
    forall k | 0 <= k < |named| ensures Joined(c, units, named, named[k]) {
      var s := streams[k];
      assert Joined(c, units, streams, s);
      assert OutPort(named[k]) == OutPort(s) && InPort(named[k]) == InPort(s);
      UsesRelabelled(streams, from, to, s.source, OutPort(s));
      UsesRelabelled(streams, from, to, s.target, InPort(s));
    }
  }

  // ---- Elementary edits -----------------------------------------------------------------------

  /** The stream a connection adds. */
  function NewStream(e: Edit, made: Id): Stream
    requires e.Connect?
  {
    Stream(made, e.source, e.target, Some(e.sourcePort), Some(e.targetPort))
  }

  /** An accepted connection whose port names are not empty fits. */
  lemma NamedConnectionFits(p: Policy, d: Document, e: Edit, made: Id)
    requires FoldsDigits(p.fold) && e.Connect? && Elementary(p, d, e, made).Success?
    requires e.sourcePort != "" && e.targetPort != ""
    ensures EndsFit(p.catalogue, d.units, d.streams, NewStream(e, made))
  {
    OccupiedCounts(d.streams, e.source, e.sourcePort);
    OccupiedCounts(d.streams, e.target, e.targetPort);
    hide Check, FirstFree;
  }

  /** What an accepted connection adds, and that the automatic numbering moves on. */
  lemma ConnectShape(p: Policy, d: Document, e: Edit, made: Id)
    requires FoldsDigits(p.fold) && e.Connect? && Elementary(p, d, e, made).Success?
    ensures e.source != e.target
    ensures var r := Elementary(p, d, e, made).value;
      r.units == d.units && r.streams == d.streams + [NewStream(e, made)] && Check(p, r) && r.nextNumber > d.nextNumber
  {
    hide Check, FirstFree, FreePort;
  }

  /** An accepted connection keeps the wiring sound exactly when the ends it really takes fit: an
      empty port name is checked as it is given but counted as the first port. */
  lemma ConnectWiredIff(p: Policy, d: Document, e: Edit, made: Id)
    requires FoldsDigits(p.fold) && e.Connect? && Wired(p, d) && Elementary(p, d, e, made).Success?
    ensures Wired(p, Elementary(p, d, e, made).value) <==> EndsFit(p.catalogue, d.units, d.streams, NewStream(e, made))
    ensures e.sourcePort != "" && e.targetPort != "" ==> Wired(p, Elementary(p, d, e, made).value)
  {
    ConnectShape(p, d, e, made);
    AddStreamSoundIff(p.catalogue, d.units, d.streams, NewStream(e, made));
    if e.sourcePort != "" && e.targetPort != "" { NamedConnectionFits(p, d, e, made); }
    hide Elementary, Check, Sound, EndsFit;
  }

  /** With named ports, an accepted connection names them. */
  lemma ConnectionNames(p: Policy, d: Document, e: Edit, made: Id)
    requires FoldsDigits(p.fold) && e.Connect? && NamedPorts(p.catalogue) && Elementary(p, d, e, made).Success?
    ensures e.sourcePort != "" && e.targetPort != ""
  {
    hide Check, FirstFree, Occupied;
  }

  predicate Presentational(e: Edit) {
    !e.Add? && !e.Connect? && !e.Remove? && !e.Configure?
  }

  /** Edits of the presentation leave every unit and stream as it was. */
  lemma PresentationKeepsEngineering(p: Policy, d: Document, e: Edit, made: Id)
    requires FoldsDigits(p.fold) && Presentational(e) && Apply(p, d, e, made).Success?
    ensures var r := Apply(p, d, e, made).value; r.units == d.units && r.streams == d.streams
  {
    hide Check, FirstFree;
  }

  /** Every accepted elementary edit keeps a sound wiring sound. */
  lemma ApplyKeepsWiring(p: Policy, d: Document, e: Edit, made: Id)
    requires FoldsDigits(p.fold) && NamedPorts(p.catalogue) && Wired(p, d) && Apply(p, d, e, made).Success?
    ensures Wired(p, Apply(p, d, e, made).value)
  {
    var r := Recovered(d);
    assert Wired(p, r);
    match e
    case Add(model, layout) =>
      AddUnitKeepsSound(p.catalogue, d.units, d.streams, Equipment(made, model, 0));
      AddShape(p, d, model, layout, made);
    case Connect(_, _, _, _) =>
      ConnectionNames(p, r, e, made);
      ConnectWiredIff(p, r, e, made);
    case Remove(ids, confirmed) => RemoveWires(p, r, ids, confirmed);
    case Configure(id, inputs) =>
      if inputs.Some? { ConfigureKeepsSound(p.catalogue, d.units, d.streams, id, inputs.value); }
      ConfigureShape(p, d, id, inputs, made);
    case _ => PresentationKeepsEngineering(p, d, e, made);
  }

  lemma AddShape(p: Policy, d: Document, model: string, layout: nat, made: Id)
    requires FoldsDigits(p.fold) && Apply(p, d, Add(model, layout), made).Success?
    ensures var r := Apply(p, d, Add(model, layout), made).value;
      r.units == d.units + [Equipment(made, model, 0)] && r.streams == d.streams
    ensures Check(p, Apply(p, d, Add(model, layout), made).value)
  {
    hide Check, FirstFree;
  }

  lemma ConfigureShape(p: Policy, d: Document, id: Id, inputs: Option<nat>, made: Id)
    requires FoldsDigits(p.fold) && Apply(p, d, Configure(id, inputs), made).Success?
    ensures inputs.Some?
    ensures var r := Apply(p, d, Configure(id, inputs), made).value;
      r.units == WithInputs(d.units, id, inputs.value) && r.streams == d.streams
  {
    hide Check, FirstFree;
  }

  /** No unit has the identity of a stream. */
  lemma KindsApart(d: Document, id: Id)
    requires Distinct(ObjectIds(d)) && id in UnitIds(d.units)
    ensures id !in StreamIds(d.streams)
  {
    var us, ss := UnitIds(d.units), StreamIds(d.streams);
    var i :| 0 <= i < |us| && us[i] == id;
    forall j | 0 <= j < |ss| ensures ss[j] != id {
      assert ObjectIds(d)[i] == us[i] && ObjectIds(d)[|us| + j] == ss[j];
    }
  }

  /** The ends of a wired stream are units. */
  lemma EndsAreUnits(p: Policy, d: Document, s: Stream)
    requires Wired(p, d) && s in d.streams
    ensures s.source in UnitIds(d.units) && s.target in UnitIds(d.units)
  {
    var k :| 0 <= k < |d.streams| && d.streams[k] == s;
    assert Joined(p.catalogue, d.units, d.streams, d.streams[k]);
  }

  /** What removal takes: the selection and the streams attached to it; no further stream is
      attached to those. */
  lemma RemovalIsClosed(p: Policy, d: Document, selected: set<Id>, s: Stream)
    requires Wired(p, d) && Distinct(ObjectIds(d)) && s in d.streams
    requires var gone := selected + Attached(d.streams, selected); s.source in gone || s.target in gone
    ensures s.id in Attached(d.streams, selected)
  {
    EndsAreUnits(p, d, s);
    KindsApart(d, s.source);
    KindsApart(d, s.target);
    forall id | id in Attached(d.streams, selected) ensures id in StreamIds(d.streams) {
      var t :| t in d.streams && t.id == id;
      var k :| 0 <= k < |d.streams| && d.streams[k] == t;
      assert StreamIds(d.streams)[k] == id;
    }
  }

  lemma RemoveWires(p: Policy, d: Document, ids: seq<Id>, confirmed: bool)
    requires Wired(p, d) && Check(p, d) && Removed(p, d, ids, confirmed).Success?
    ensures Wired(p, Removed(p, d, ids, confirmed).value)
  {
    var selected := set id | id in ids;
    var gone := selected + Attached(d.streams, selected);
    assert Distinct(ObjectIds(d));
    hide Check, Sound, Distinct;
    forall s | s in d.streams && (s.source in gone || s.target in gone) ensures s.id in gone {
      RemovalIsClosed(p, d, selected, s);
    }
    RemoveKeepsSound(p.catalogue, d.units, d.streams, gone);
  }

  /** Whatever an elementary edit is accepted with passes the check. */
  lemma ApplyIsChecked(p: Policy, d: Document, e: Edit, made: Id)
    requires FoldsDigits(p.fold)
    ensures Apply(p, d, e, made).Success? ==> Check(p, Apply(p, d, e, made).value)
  {
    hide Check, FirstFree;
  }

  // ---- Automatic numbering --------------------------------------------------------------------

  /** A new stream's tag is one no object uses, ignoring case, and its number is spent. */
  lemma ConnectionIsNamed(p: Policy, d: Document, e: Edit, made: Id)
    requires FoldsDigits(p.fold) && e.Connect? && Apply(p, d, e, made).Success?
    ensures var r := Apply(p, d, e, made).value;
      exists n :: && d.nextNumber <= n && d.settings.start <= n && r.nextNumber == n + 1
        && r.objects == d.objects + [Shown(made, TagOf(d.settings.prefix, d.settings.padding, n), None, None, 0)]
        && Folded(p.fold, TagOf(d.settings.prefix, d.settings.padding, n)) !in FoldedTags(p.fold, d.objects)
  {
    hide Check, FreePort, FirstFree, FoldedTags;
    var n := NextStreamNumber(p, Recovered(d));
    assert Apply(p, d, e, made).value.nextNumber == n + 1;
  }

  /** No edit lowers the next number, so a number spent on one stream is never given to another. */
  lemma NumberNeverFalls(p: Policy, d: Document, e: Edit, made: Id)
    requires FoldsDigits(p.fold) && Apply(p, d, e, made).Success?
    ensures Apply(p, d, e, made).value.nextNumber >= d.nextNumber
    ensures e.Connect? ==> Apply(p, d, e, made).value.nextNumber > d.nextNumber
  {
    hide Check, FreePort, FirstFree;
  }
}
