/** Splitting a stream: its shape, its wiring and its check. */
module PfdSplit {
  import opened Wrappers
  import opened Tags
  import opened Pfd
  import opened PfdWiring

  lemma {:induction false} UnitsWithoutNone(units: seq<Equipment>, ids: set<Id>)
    requires forall i :: 0 <= i < |units| ==> units[i].id !in ids
    ensures UnitsWithout(units, ids) == units
    decreases |units|
  {
    if units != [] { UnitsWithoutNone(units[1..], ids); }
  }

  lemma UnitsStandApart(d: Document, id: Id)
    requires Distinct(ObjectIds(d)) && id in StreamIds(d.streams)
    ensures UnitsWithout(d.units, {id}) == d.units
  {
    forall i | 0 <= i < |d.units| ensures d.units[i].id != id {
      assert UnitIds(d.units)[i] in UnitIds(d.units);
      KindsApart(d, d.units[i].id);
    }
    hide Distinct, ObjectIds;
    UnitsWithoutNone(d.units, {id});
  }

  lemma EndsElsewhere(p: Policy, d: Document, id: Id, s: Stream)
    requires Wired(p, d) && Distinct(ObjectIds(d)) && id in StreamIds(d.streams) && s in d.streams
    ensures s.source != id && s.target != id
  {
    EndsAreUnits(p, d, s);
    hide Wired, Distinct, ObjectIds;
    KindsApart(d, s.source);
    KindsApart(d, s.target);
  }

  /** Nothing hangs on a stream of a wired document. */
  lemma StreamStandsAlone(p: Policy, d: Document, id: Id)
    requires Wired(p, d) && Distinct(ObjectIds(d)) && id in StreamIds(d.streams)
    ensures Attached(d.streams, {id}) == {} && UnitsWithout(d.units, {id}) == d.units
  {
    UnitsStandApart(d, id);
    hide *;
    forall s | s in d.streams ensures s.source != id && s.target != id { EndsElsewhere(p, d, id, s); }
    AttachesNothing(d.streams, id);
  }

  lemma AttachesNothing(streams: seq<Stream>, id: Id)
    requires forall s :: s in streams ==> s.source != id && s.target != id
    ensures Attached(streams, {id}) == {}
  {
  }

  lemma RemovedShape(p: Policy, d: Document, id: Id)
    requires Attached(d.streams, {id}) == {} && Removed(p, d, [id], true).Success?
    ensures var r := Removed(p, d, [id], true).value;
      r.units == UnitsWithout(d.units, {id}) && r.streams == StreamsWithout(d.streams, {id})
  {
    hide Check, Attached, UnitsWithout, StreamsWithout;
    var selected := set x | x in [id];
    assert selected == {id} && {id} + {} == {id};
  }

  /** Removing one stream of a wired document takes nothing else. */
  lemma RemoveStreamShape(p: Policy, d: Document, id: Id)
    requires FoldsDigits(p.fold) && Wired(p, d) && Check(p, d) && id in StreamIds(d.streams)
    requires Apply(p, d, Remove([id], true), "").Success?
    ensures var r := Apply(p, d, Remove([id], true), "").value;
      r.units == d.units && r.streams == StreamsWithout(d.streams, {id})
  {
    var r := Recovered(d);
    hide Removed, Sound, Attached, Distinct;
    assert Wired(p, r) && Distinct(ObjectIds(r));
    StreamStandsAlone(p, r, id);
    RemovedShape(p, r, id);
  }

  /** What an accepted connection adds to the units and streams. */
  lemma ApplyConnectShape(p: Policy, d: Document, e: Edit, made: Id)
    requires FoldsDigits(p.fold) && e.Connect? && Apply(p, d, e, made).Success?
    ensures var r := Apply(p, d, e, made).value;
      r.units == d.units && r.streams == d.streams + [NewStream(e, made)] && Check(p, r)
  {
    ConnectShape(p, Recovered(d), e, made);
    hide Elementary, Check;
  }

  /** A branch adds its one stream, whatever it is named. */
  lemma BranchShape(p: Policy, d: Document, splitter: Id, output: string, target: Id, port: string,
      parent: Shown, suffix: string, suffixed: bool, made: Id)
    requires FoldsDigits(p.fold) && Branched(p, d, splitter, output, target, port, parent, suffix, suffixed,
      made).Success?
    ensures var r := Branched(p, d, splitter, output, target, port, parent, suffix, suffixed, made).value;
      r.units == d.units
      && r.streams == d.streams + [Stream(made, splitter, target, Some(output), Some(port))]
    ensures Apply(p, d, Connect(splitter, output, target, port), made).Success?
  {
    hide Check, Elementary, Apply;
    var e := Connect(splitter, output, target, port);
    ApplyConnectShape(p, d, e, made);
    if suffixed {
      var w := Apply(p, d, e, made).value;
      PresentationKeepsEngineering(p, w, Rename(made, parent.tag + suffix, false, true), "");
    }
  }

  lemma BranchKeepsWiring(p: Policy, d: Document, splitter: Id, output: string, target: Id, port: string,
      parent: Shown, suffix: string, suffixed: bool, made: Id)
    requires FoldsDigits(p.fold) && NamedPorts(p.catalogue) && Wired(p, d)
    requires Branched(p, d, splitter, output, target, port, parent, suffix, suffixed, made).Success?
    ensures Wired(p, Branched(p, d, splitter, output, target, port, parent, suffix, suffixed, made).value)
  {
    BranchShape(p, d, splitter, output, target, port, parent, suffix, suffixed, made);
    hide Branched, Check, Elementary, Apply, Sound;
    ApplyKeepsWiring(p, d, Connect(splitter, output, target, port), made);
    ApplyConnectShape(p, d, Connect(splitter, output, target, port), made);
  }

  /** The documents between the steps of a split. */
  predicate SplitSteps(p: Policy, d: Document, s: Stream, parent: Shown, layout: nat, target: Id, port: string,
      made: seq<Id>, w1: Document, w2: Document, w3: Document, w4: Document, w5: Document, w6: Document, r: Document)
    requires FoldsDigits(p.fold) && |made| == 4
  {
    && Apply(p, d, Remove([s.id], true), "") == Success(w1)
    && Apply(p, w1, Add("splitter", layout), made[0]) == Success(w2)
    && Apply(p, w2, Connect(s.source, OutPort(s), made[0], "in-0"), made[1]) == Success(w3)
    && Apply(p, w3, Rename(made[1], parent.tag, false, true), "") == Success(w4)
    && w5 == w4.(streams := Relabelled(w4.streams, made[1], s.id),
      objects := RelabelledShown(w4.objects, made[1], s.id))
    && Branched(p, w5, made[0], "out-0", s.target, InPort(s), parent, "(a)", d.settings.suffixed, made[2])
      == Success(w6)
    && Branched(p, w6, made[0], "out-1", target, port, parent, "(b)", d.settings.suffixed, made[3]) == Success(r)
  }

  lemma SplitHasSteps(p: Policy, d: Document, id: Id, layout: nat, target: Id, port: string, made: seq<Id>)
      returns (s: Stream, parent: Shown, w1: Document, w2: Document, w3: Document, w4: Document, w5: Document,
        w6: Document)
    requires FoldsDigits(p.fold) && |made| == 4 && Split(p, d, id, layout, target, port, made).Success?
    ensures FindStream(d.streams, id) == Some(s) && s.id == id
    ensures FindShown(d.objects, id) == Some(parent) && parent.id == id
    ensures SplitSteps(p, d, s, parent, layout, target, port, made, w1, w2, w3, w4, w5, w6,
                       Split(p, d, id, layout, target, port, made).value)
  {
    hide Apply, Branched, Check;
    s, parent := FindStream(d.streams, id).value, FindShown(d.objects, id).value;
    w1 := Apply(p, d, Remove([id], true), "").value;
    w2 := Apply(p, w1, Add("splitter", layout), made[0]).value;
    w3 := Apply(p, w2, Connect(s.source, OutPort(s), made[0], "in-0"), made[1]).value;
    w4 := Apply(p, w3, Rename(made[1], parent.tag, false, true), "").value;
    w5 := w4.(streams := Relabelled(w4.streams, made[1], id), objects := RelabelledShown(w4.objects, made[1], id));
    w6 := Branched(p, w5, made[0], "out-0", s.target, InPort(s), parent, "(a)", d.settings.suffixed, made[2]).value;
  }

  /** A split keeps a sound wiring sound. */
  lemma SplitKeepsWiring(p: Policy, d: Document, id: Id, layout: nat, target: Id, port: string, made: seq<Id>)
    requires FoldsDigits(p.fold) && |made| == 4 && NamedPorts(p.catalogue) && Wired(p, d)
    requires SplitStream(p, d, id, layout, target, port, made).Success?
    ensures Wired(p, SplitStream(p, d, id, layout, target, port, made).value)
  {
    hide Split, Apply, Branched, Check, Sound, NamedPorts;
    var s, parent, w1, w2, w3, w4, w5, w6 := SplitHasSteps(p, Recovered(d), id, layout, target, port, made);
    ApplyKeepsWiring(p, Recovered(d), Remove([id], true), "");
    ApplyKeepsWiring(p, w1, Add("splitter", layout), made[0]);
    ApplyKeepsWiring(p, w2, Connect(s.source, OutPort(s), made[0], "in-0"), made[1]);
    ApplyKeepsWiring(p, w3, Rename(made[1], parent.tag, false, true), "");
    RelabelKeepsSound(p.catalogue, w4.units, w4.streams, made[1], id);
    BranchKeepsWiring(p, w5, made[0], "out-0", s.target, InPort(s), parent, "(a)", d.settings.suffixed, made[2]);
    BranchKeepsWiring(p, w6, made[0], "out-1", target, port, parent, "(b)", d.settings.suffixed, made[3]);
  }

  lemma {:induction false} RelabelLast(streams: seq<Stream>, s: Stream, to: Id)
    requires forall i :: 0 <= i < |streams| ==> streams[i].id != s.id
    ensures Relabelled(streams + [s], s.id, to) == streams + [s.(id := to)]
  {
    var r := Relabelled(streams + [s], s.id, to);
    forall i | 0 <= i < |streams| ensures r[i] == streams[i] { assert (streams + [s])[i] == streams[i]; }
  }

  /** The last of a checked document's streams has an identity of its own. */
  lemma LastIsDistinct(p: Policy, d: Document, streams: seq<Stream>, s: Stream)
    requires Check(p, d) && d.streams == streams + [s]
    ensures forall i :: 0 <= i < |streams| ==> streams[i].id != s.id
  {
    var ids, n := ObjectIds(d), |d.units|;
    forall i | 0 <= i < |streams| ensures streams[i].id != s.id {
      assert d.streams[i] == streams[i] && d.streams[|streams|] == s;
      assert ids[n + i] == streams[i].id && ids[n + |streams|] == s.id;
    }
  }

  /** What a split does to the units and streams: one more unit, the splitter; the stream's own
      identity on the segment from its source to the splitter; two more streams, to its target and
      to the new one; every other unit and stream as it was, in place. */
  lemma SplitShape(p: Policy, d: Document, id: Id, layout: nat, target: Id, port: string, made: seq<Id>)
    requires FoldsDigits(p.fold) && |made| == 4 && Wired(p, d)
    requires SplitStream(p, d, id, layout, target, port, made).Success?
    ensures FindStream(d.streams, id).Some?
    ensures var s := FindStream(d.streams, id).value;
      var r := SplitStream(p, d, id, layout, target, port, made).value;
      && r.units == d.units + [Equipment(made[0], "splitter", 0)]
      && r.streams == StreamsWithout(d.streams, {id})
           + [Stream(id, s.source, made[0], Some(OutPort(s)), Some("in-0"))]
           + [Stream(made[2], made[0], s.target, Some("out-0"), Some(InPort(s)))]
           + [Stream(made[3], made[0], target, Some("out-1"), Some(port))]
  {
    hide Split, Apply, Branched, Check, Sound, Distinct;
    var s, parent, w1, w2, w3, w4, w5, w6 := SplitHasSteps(p, Recovered(d), id, layout, target, port, made);
    RemoveStreamShape(p, Recovered(d), id);
    AddShape(p, w1, "splitter", layout, made[0]);
    var upstream := Connect(s.source, OutPort(s), made[0], "in-0");
    ApplyConnectShape(p, w2, upstream, made[1]);
    LastIsDistinct(p, w3, w2.streams, NewStream(upstream, made[1]));
    PresentationKeepsEngineering(p, w3, Rename(made[1], parent.tag, false, true), "");
    RelabelLast(w2.streams, NewStream(upstream, made[1]), id);
    BranchShape(p, w5, made[0], "out-0", s.target, InPort(s), parent, "(a)", d.settings.suffixed, made[2]);
    BranchShape(p, w6, made[0], "out-1", target, port, parent, "(b)", d.settings.suffixed, made[3]);
  }

  /** Whatever a split is accepted with passes the check. */
  lemma SplitIsChecked(p: Policy, d: Document, id: Id, layout: nat, target: Id, port: string, made: seq<Id>)
    requires FoldsDigits(p.fold) && |made| == 4
    ensures var r := SplitStream(p, d, id, layout, target, port, made); r.Success? ==> Check(p, r.value)
  {
    hide Check, Apply, Branched;
  }
}
