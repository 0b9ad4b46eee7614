/** Pasting equipment: its shape, its wiring, its check and its loops. */
module PfdPaste {
  import opened Wrappers
  import opened Tags
  import opened Pfd
  import opened PfdWiring
  import opened PfdSplit

  /** Which units a paste copies. */
  predicate Copies(clip: Clip, n: nat, copies: map<Id, Id>, made: seq<Id>)
    requires n <= |clip.source.units| <= |made|
  {
    && (forall k :: 0 <= k < n && clip.source.units[k].id in clip.ids ==> clip.source.units[k].id in copies)
    && (forall id :: id in copies ==>
          exists k :: 0 <= k < n && clip.source.units[k].id == id && id in clip.ids && copies[id] == made[k])
  }

  /** The copies of the selected units, in order. */
  function UnitCopies(clip: Clip, made: seq<Id>, n: nat): seq<Equipment>
    requires n <= |clip.source.units| <= |made|
  {
    if n == 0 then []
    else
      var u := clip.source.units[n - 1];
      UnitCopies(clip, made, n - 1)
      + if u.id !in clip.ids then []
        else
          [Equipment(made[n - 1], u.model,
             if u.id in clip.inputs && clip.inputs[u.id].Some? then clip.inputs[u.id].value else 0)]
  }

  /** The copies of the streams between copied units, in order. */
  function StreamCopies(clip: Clip, copies: map<Id, Id>, made: seq<Id>, n: nat): seq<Stream>
    requires n <= |clip.source.streams| && |clip.source.units| + n <= |made|
  {
    if n == 0 then []
    else
      var s := clip.source.streams[n - 1];
      StreamCopies(clip, copies, made, n - 1)
      + if s.source !in copies || s.target !in copies then []
        else
          [Stream(made[|clip.source.units| + n - 1], copies[s.source], copies[s.target], Some(OutPort(s)),
            Some(InPort(s)))]
  }

  lemma {:induction false} ConfigureLast(units: seq<Equipment>, u: Equipment, inputs: nat)
    requires u.id !in UnitIds(units)
    ensures WithInputs(units + [u], u.id, inputs) == units + [u.(inputs := inputs)]
    decreases |units|
  {
    if units != [] {
      assert (units + [u])[1..] == units[1..] + [u] && (units + [u])[0] == units[0];
      assert UnitIds(units) == [units[0].id] + UnitIds(units[1..]);
      ConfigureLast(units[1..], u, inputs);
      hide UnitIds;
      assert units + [u.(inputs := inputs)] == [units[0]] + (units[1..] + [u.(inputs := inputs)]);
    } else {
      assert [u][1..] == [] && units + [u] == [u];
    }
  }

  lemma LastUnitIsNew(p: Policy, d: Document, units: seq<Equipment>, u: Equipment)
    requires Check(p, d) && d.units == units + [u]
    ensures u.id !in UnitIds(units)
  {
    var ids := ObjectIds(d);
    forall i | 0 <= i < |units| ensures UnitIds(units)[i] != u.id {
      assert d.units[i] == units[i] && ids[i] == units[i].id && ids[|units|] == u.id;
    }
  }

  /** Pasting one unit appends its copy. */
  lemma PasteUnitShape(p: Policy, w: Document, clip: Clip, unit: Equipment, made: Id)
    requires FoldsDigits(p.fold)
    requires var w1 := Apply(p, w, Add(unit.model, 0), made);
      w1.Success? && (unit.id in clip.inputs ==> Apply(p, w1.value, Configure(made, clip.inputs[unit.id]), "").Success?)
    ensures var w1 := Apply(p, w, Add(unit.model, 0), made).value;
      var w2 := if unit.id in clip.inputs then Apply(p, w1, Configure(made, clip.inputs[unit.id]), "").value else w1;
      && w2.units == w.units + [Equipment(made, unit.model,
           if unit.id in clip.inputs && clip.inputs[unit.id].Some? then clip.inputs[unit.id].value else 0)]
      && w2.streams == w.streams
  {
    hide Apply, Check;
    AddShape(p, w, unit.model, 0, made);
    if unit.id in clip.inputs {
      var w1 := Apply(p, w, Add(unit.model, 0), made).value;
      ConfigureShape(p, w1, made, clip.inputs[unit.id], "");
      LastUnitIsNew(p, w1, w.units, Equipment(made, unit.model, 0));
      ConfigureLast(w.units, Equipment(made, unit.model, 0), clip.inputs[unit.id].value);
    }
  }

  lemma {:induction false} PastedUnitsShape(p: Policy, d: Document, clip: Clip, made: seq<Id>, n: nat)
    requires FoldsDigits(p.fold) && n <= |clip.source.units| <= |made|
    requires PastedUnits(p, d, clip, made, n).Success?
    ensures var (w, copies) := PastedUnits(p, d, clip, made, n).value;
      w.units == d.units + UnitCopies(clip, made, n) && w.streams == d.streams && Copies(clip, n, copies, made)
  {
    hide Apply, Check;
    if n > 0 {
      PastedUnitsShape(p, d, clip, made, n - 1);
      var unit := clip.source.units[n - 1];
      var w := PastedUnits(p, d, clip, made, n - 1).value.0;
      if unit.id in clip.ids { PasteUnitShape(p, w, clip, unit, made[n - 1]); }
    }
  }

  lemma {:induction false} PastedStreamsShape(p: Policy, d: Document, clip: Clip, copies: map<Id, Id>, made: seq<Id>,
      n: nat)
    requires FoldsDigits(p.fold) && n <= |clip.source.streams| && |clip.source.units| + n <= |made|
    requires PastedStreams(p, d, clip, copies, made, n).Success?
    ensures var w := PastedStreams(p, d, clip, copies, made, n).value;
      w.units == d.units && w.streams == d.streams + StreamCopies(clip, copies, made, n)
  {
    hide Apply, Check;
    if n > 0 {
      PastedStreamsShape(p, d, clip, copies, made, n - 1);
      var s := clip.source.streams[n - 1];
      if s.source in copies && s.target in copies {
        var w := PastedStreams(p, d, clip, copies, made, n - 1).value;
        ApplyConnectShape(p, w, Connect(copies[s.source], OutPort(s), copies[s.target], InPort(s)),
          made[|clip.source.units| + n - 1]);
      }
    }
  }

  /** What a paste does to the units and streams: everything there stays, in place; after it come
      copies of exactly the selected units under new identities and, if connections are asked for,
      copies of exactly the streams between them. */
  lemma PasteShape(p: Policy, d: Document, clip: Clip, made: seq<Id>) returns (copies: map<Id, Id>)
    requires FoldsDigits(p.fold) && |made| == |clip.source.units| + |clip.source.streams|
    requires Paste(p, d, clip, made).Success?
    ensures Copies(clip, |clip.source.units|, copies, made)
    ensures var r := Paste(p, d, clip, made).value;
      && r.units == d.units + UnitCopies(clip, made, |clip.source.units|)
      && r.streams == d.streams
           + if clip.connections then StreamCopies(clip, copies, made, |clip.source.streams|) else []
  {
    hide Check, PastedUnits, PastedStreams;
    var r := Recovered(d);
    PastedUnitsShape(p, r, clip, made, |clip.source.units|);
    var w: Document;
    w := PastedUnits(p, r, clip, made, |clip.source.units|).value.0;
    copies := PastedUnits(p, r, clip, made, |clip.source.units|).value.1;
    if clip.connections { PastedStreamsShape(p, w, clip, copies, made, |clip.source.streams|); }
  }

  lemma {:induction false} PastedUnitsKeepWiring(p: Policy, d: Document, clip: Clip, made: seq<Id>, n: nat)
    requires FoldsDigits(p.fold) && n <= |clip.source.units| <= |made| && NamedPorts(p.catalogue) && Wired(p, d)
    requires PastedUnits(p, d, clip, made, n).Success?
    ensures Wired(p, PastedUnits(p, d, clip, made, n).value.0)
  {
    hide Apply, Sound, NamedPorts;
    if n > 0 {
      PastedUnitsKeepWiring(p, d, clip, made, n - 1);
      var unit := clip.source.units[n - 1];
      var w := PastedUnits(p, d, clip, made, n - 1).value.0;
      if unit.id in clip.ids {
        var add := Add(unit.model, 0);
        ApplyKeepsWiring(p, w, add, made[n - 1]);
        if unit.id in clip.inputs {
          ApplyKeepsWiring(p, Apply(p, w, add, made[n - 1]).value, Configure(made[n - 1], clip.inputs[unit.id]), "");
        }
      }
    }
  }

  lemma {:induction false} PastedStreamsKeepWiring(p: Policy, d: Document, clip: Clip, copies: map<Id, Id>,
      made: seq<Id>, n: nat)
    requires FoldsDigits(p.fold) && n <= |clip.source.streams| && |clip.source.units| + n <= |made|
    requires NamedPorts(p.catalogue) && Wired(p, d) && PastedStreams(p, d, clip, copies, made, n).Success?
    ensures Wired(p, PastedStreams(p, d, clip, copies, made, n).value)
  {
    hide Apply, Sound, NamedPorts;
    if n > 0 {
      PastedStreamsKeepWiring(p, d, clip, copies, made, n - 1);
      var s := clip.source.streams[n - 1];
      if s.source in copies && s.target in copies {
        var w := PastedStreams(p, d, clip, copies, made, n - 1).value;
        ApplyKeepsWiring(p, w, Connect(copies[s.source], OutPort(s), copies[s.target], InPort(s)),
          made[|clip.source.units| + n - 1]);
      }
    }
  }

  /** A paste keeps a sound wiring sound. */
  lemma PasteKeepsWiring(p: Policy, d: Document, clip: Clip, made: seq<Id>)
    requires FoldsDigits(p.fold) && |made| == |clip.source.units| + |clip.source.streams|
    requires NamedPorts(p.catalogue) && Wired(p, d) && Paste(p, d, clip, made).Success?
    ensures Wired(p, Paste(p, d, clip, made).value)
  {
    hide PastedUnits, PastedStreams, Sound, Check, NamedPorts;
    var r := Recovered(d);
    PastedUnitsKeepWiring(p, r, clip, made, |clip.source.units|);
    if clip.connections {
      var (w, copies) := PastedUnits(p, r, clip, made, |clip.source.units|).value;
      PastedStreamsKeepWiring(p, w, clip, copies, made, |clip.source.streams|);
    }
  }

  lemma {:induction false} PastedIsChecked(p: Policy, d: Document, clip: Clip, made: seq<Id>, n: nat)
    requires FoldsDigits(p.fold) && n <= |clip.source.units| <= |made| && Check(p, d)
    ensures PastedUnits(p, d, clip, made, n).Success? ==> Check(p, PastedUnits(p, d, clip, made, n).value.0)
  {
    hide Check, Apply;
    if n > 0 && PastedUnits(p, d, clip, made, n - 1).Success? {
      PastedIsChecked(p, d, clip, made, n - 1);
      var u := clip.source.units[n - 1];
      var w := PastedUnits(p, d, clip, made, n - 1).value.0;
      ApplyIsChecked(p, w, Add(u.model, 0), made[n - 1]);
      if u.id in clip.inputs && Apply(p, w, Add(u.model, 0), made[n - 1]).Success? {
        ApplyIsChecked(p, Apply(p, w, Add(u.model, 0), made[n - 1]).value, Configure(made[n - 1], clip.inputs[u.id]),
          "");
      }
    }
  }

  lemma {:induction false} StreamsAreChecked(p: Policy, d: Document, clip: Clip, copies: map<Id, Id>, made: seq<Id>,
      n: nat)
    requires FoldsDigits(p.fold) && n <= |clip.source.streams| && |clip.source.units| + n <= |made| && Check(p, d)
    ensures PastedStreams(p, d, clip, copies, made, n).Success? ==>
      Check(p, PastedStreams(p, d, clip, copies, made, n).value)
  {
    hide Check, Apply;
    if n > 0 && PastedStreams(p, d, clip, copies, made, n - 1).Success? {
      StreamsAreChecked(p, d, clip, copies, made, n - 1);
      var s := clip.source.streams[n - 1];
      if s.source in copies && s.target in copies {
        var w := PastedStreams(p, d, clip, copies, made, n - 1).value;
        ApplyIsChecked(p, w, Connect(copies[s.source], OutPort(s), copies[s.target], InPort(s)),
          made[|clip.source.units| + n - 1]);
      }
    }
  }

  /** Whatever a paste is accepted with passes the check. */
  lemma PasteIsChecked(p: Policy, d: Document, clip: Clip, made: seq<Id>)
    requires FoldsDigits(p.fold) && |made| == |clip.source.units| + |clip.source.streams|
    ensures Paste(p, d, clip, made).Success? ==> Check(p, Paste(p, d, clip, made).value)
  {
    hide Check, PastedUnits, PastedStreams;
    if Paste(p, d, clip, made).Success? {
      var n := |clip.source.units|;
      PastedIsChecked(p, Recovered(d), clip, made, n);
      var (w, copies) := PastedUnits(p, Recovered(d), clip, made, n).value;
      if clip.connections { StreamsAreChecked(p, w, clip, copies, made, |clip.source.streams|); }
    }
  }

  // ---- The loop of a paste --------------------------------------------------------------------

  /** The paste with its two loops. */
  method PasteEquipment(p: Policy, d: Document, clip: Clip, made: seq<Id>) returns (r: Result<Document, Rejection>)
    requires FoldsDigits(p.fold) && |made| == |clip.source.units| + |clip.source.streams|
    ensures r == Paste(p, d, clip, made)
  {
    hide Apply, Check;
    if !Check(p, Recovered(d)) || !Check(p, clip.source) { return Failure(CheckFailed); }
    var work := Recovered(d);
    var copies: map<Id, Id> := map[];
    for n := 0 to |clip.source.units|
      invariant PastedUnits(p, Recovered(d), clip, made, n) == Success((work, copies))
    {
      var unit := clip.source.units[n];
      if unit.id in clip.ids {
        var added := Apply(p, work, Add(unit.model, 0), made[n]);
        if added.Success? && unit.id in clip.inputs {
          added := Apply(p, added.value, Configure(made[n], clip.inputs[unit.id]), "");
        }
        if added.Failure? {
          UnitsStop(p, Recovered(d), clip, made, n + 1, |clip.source.units|, added.error);
          return added;
        }
        work, copies := added.value, copies[unit.id := made[n]];
      }
    }
    if !clip.connections { return Success(work); }
    ghost var before := work;
    for n := 0 to |clip.source.streams|
      invariant PastedStreams(p, before, clip, copies, made, n) == Success(work)
    {
      var s := clip.source.streams[n];
      if s.source in copies && s.target in copies {
        var joined := Apply(p, work, Connect(copies[s.source], OutPort(s), copies[s.target], InPort(s)),
          made[|clip.source.units| + n]);
        if joined.Failure? {
          StreamsStop(p, before, clip, copies, made, n + 1, |clip.source.streams|, joined.error);
          return joined;
        }
        work := joined.value;
      }
    }
    return Success(work);
  }

  lemma {:induction false} UnitsStop(p: Policy, d: Document, clip: Clip, made: seq<Id>, n: nat, m: nat,
      error: Rejection)
    requires FoldsDigits(p.fold) && n <= m <= |clip.source.units| <= |made|
    requires PastedUnits(p, d, clip, made, n) == Failure(error)
    ensures PastedUnits(p, d, clip, made, m) == Failure(error)
    decreases m - n
  {
    hide Apply;
    if n < m { UnitsStop(p, d, clip, made, n, m - 1, error); }
  }

  lemma {:induction false} StreamsStop(p: Policy, d: Document, clip: Clip, copies: map<Id, Id>, made: seq<Id>,
      n: nat, m: nat, error: Rejection)
    requires FoldsDigits(p.fold) && n <= m <= |clip.source.streams| && |clip.source.units| + m <= |made|
    requires PastedStreams(p, d, clip, copies, made, n) == Failure(error)
    ensures PastedStreams(p, d, clip, copies, made, m) == Failure(error)
    decreases m - n
  {
    hide Apply;
    if n < m { StreamsStop(p, d, clip, copies, made, n, m - 1, error); }
  }
}
