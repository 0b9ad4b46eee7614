/** What a split calls its segments, and what a paste calls its copies. */
module PfdNames {
  import opened Wrappers
  import opened Tags
  import opened Pfd
  import opened PfdWiring
  import opened PfdObjects
  import opened PfdSplit
  import opened PfdEffects

  /** The object of an identity, in a table that shows each once. */
  predicate Shows(objects: seq<Shown>, o: Shown) {
    o in objects && forall i :: 0 <= i < |objects| && objects[i].id == o.id ==> objects[i] == o
  }

  /** An object of a checked document is the only one of its identity, and is found. */
  lemma ShownOnce(p: Policy, d: Document, o: Shown)
    requires Check(p, d) && o in d.objects
    ensures Shows(d.objects, o) && FindShown(d.objects, o.id) == Some(o)
  {
    hide Check, FindShown;
    DistinctObjects(p, d);
    var k :| 0 <= k < |d.objects| && d.objects[k] == o;
    FoundIs(d.objects, k);
  }

  lemma {:induction false} FoundIs(objects: seq<Shown>, k: nat)
    requires k < |objects| && forall i, j :: 0 <= i < j < |objects| ==> objects[i].id != objects[j].id
    ensures FindShown(objects, objects[k].id) == Some(objects[k])
    decreases |objects|
  {
    if k > 0 { FoundIs(objects[1..], k - 1); }
  }

  /** A rename gives its object the new tag and no lineage, and leaves every object alone that is not
      a branch of it. */
  lemma RenameShows(p: Policy, d: Document, id: Id, tag: string)
    requires FoldsDigits(p.fold) && Apply(p, d, Rename(id, tag, false, true), "").Success?
    ensures FindShown(d.objects, id).Some?
    ensures var r := Apply(p, d, Rename(id, tag, false, true), "").value;
      && (exists o :: o in r.objects && o.id == id && o.parent == o.suffix == None
                      && o.tag == NewTag(p, Recovered(d), id, tag, false))
      && (forall o :: o in d.objects && o.id != id && o.parent != Some(id) ==> o in r.objects)
      && (!d.settings.nextAvailable ==> NewTag(p, Recovered(d), id, tag, false) == tag)
  {
    hide Check, Renamed, NewTag, Clash, Placed, FamilyRenamed, FindShown;
    var b := Recovered(d);
    RecoveredKeeps(d);
    RenameTags(p, b, id, tag, false, true);
    RenameKeeps(p, b, id, tag, false, true);
    NewTagIs(p, b, id, tag);
    hide Recovered;
    var r := Renamed(p, b, id, tag, false, true).value;
    FoundThere(b.objects, id);
    var k :| 0 <= k < |b.objects| && b.objects[k] == FindShown(b.objects, id).value;
    assert r.objects[k] in r.objects;
    forall o | o in b.objects && o.id != id && o.parent != Some(id) ensures o in r.objects {
      var i :| 0 <= i < |b.objects| && b.objects[i] == o;
      assert r.objects[i] == o;
    }
  }

  lemma RecoveredKeeps(d: Document)
    ensures Recovered(d).objects == d.objects && Recovered(d).units == d.units && Recovered(d).streams == d.streams
    ensures Recovered(d).settings == d.settings && Recovered(d).nextNumber == d.nextNumber
  {
  }

  lemma NewTagIs(p: Policy, d: Document, id: Id, tag: string)
    requires FoldsDigits(p.fold)
    ensures Clash(p, d, id, tag).None? ==> NewTag(p, d, id, tag, false) == tag
  {
  }

  lemma FoundThere(objects: seq<Shown>, id: Id)
    requires FindShown(objects, id).Some?
    ensures exists k :: 0 <= k < |objects| && objects[k] == FindShown(objects, id).value
    ensures FindShown(objects, id).value.id == id
  {
  }

  /** A connection only appends an object, without lineage. */
  lemma ConnectShows(p: Policy, d: Document, e: Edit, made: Id)
    requires FoldsDigits(p.fold) && e.Connect? && Apply(p, d, e, made).Success?
    ensures var r := Apply(p, d, e, made).value;
      && (exists o :: o in r.objects && o.id == made && o.parent == o.suffix == None)
      && (forall o :: o in d.objects ==> o in r.objects) && r.settings == d.settings
  {
    ConnectDoes(p, d, e, made);
    hide Apply, TagOf, FoldedTags;
    var r := Apply(p, d, e, made).value;
    assert r.objects[|d.objects|] in r.objects;
  }

  /** A branch of a split: with suffixes, the new stream has its parent's tag and its suffix, and
      remembers both; without, it is an ordinary new stream. No other object changes. */
  lemma BranchShows(p: Policy, d: Document, splitter: Id, output: string, target: Id, port: string,
      parent: Shown, suffix: string, suffixed: bool, made: Id)
    requires FoldsDigits(p.fold)
    requires Branched(p, d, splitter, output, target, port, parent, suffix, suffixed, made).Success?
    ensures var r := Branched(p, d, splitter, output, target, port, parent, suffix, suffixed, made).value;
      && r.settings == d.settings
      && (exists o :: Branch(o, made, parent, suffix, suffixed) && o in r.objects
                      && (suffixed && !d.settings.nextAvailable ==> o.tag == parent.tag + suffix))
      && (forall o :: o in d.objects && o.id != made && o.parent != Some(made) ==> o in r.objects)
  {
    hide Check, Apply, FindShown, WithShown, NewTag;
    var e := Connect(splitter, output, target, port);
    ConnectShows(p, d, e, made);
    var w := Apply(p, d, e, made).value;
    if suffixed {
      RenameShows(p, w, made, parent.tag + suffix);
      var v := Apply(p, w, Rename(made, parent.tag + suffix, false, true), "").value;
      ApplyIsChecked(p, w, Rename(made, parent.tag + suffix, false, true), "");
      RenameKeepsSettings(p, w, made, parent.tag + suffix);
      var o :| o in v.objects && o.id == made && o.parent == o.suffix == None
        && o.tag == NewTag(p, Recovered(w), made, parent.tag + suffix, false);
      ShownOnce(p, v, o);
      Relined(v.objects, o, o.(parent := Some(parent.id), suffix := Some(suffix)));
      assert Branch(o.(parent := Some(parent.id), suffix := Some(suffix)), made, parent, suffix, true);
    } else {
      var o :| o in w.objects && o.id == made && o.parent == o.suffix == None;
      assert Branch(o, made, parent, suffix, false);
    }
  }

  predicate Branch(o: Shown, made: Id, parent: Shown, suffix: string, suffixed: bool) {
    && o.id == made
    && if suffixed then o.parent == Some(parent.id) && o.suffix == Some(suffix) else o.parent == o.suffix == None
  }

  lemma RenameKeepsSettings(p: Policy, d: Document, id: Id, tag: string)
    requires FoldsDigits(p.fold) && Apply(p, d, Rename(id, tag, false, true), "").Success?
    ensures Apply(p, d, Rename(id, tag, false, true), "").value.settings == d.settings
  {
    RenamedOnly(p, Recovered(d), id, tag, false, true);
    hide Check, Renamed;
  }

  /** Replacing an object that is shown once leaves the others. */
  lemma Relined(objects: seq<Shown>, o: Shown, n: Shown)
    requires o in objects && n.id == o.id
    ensures n in WithShown(objects, n) && forall x :: x in objects && x.id != n.id ==> x in WithShown(objects, n)
  {
    WithShownAt(objects, n);
    var k :| 0 <= k < |objects| && objects[k] == o;
    assert WithShown(objects, n)[k] == n;
    forall x | x in objects && x.id != n.id ensures x in WithShown(objects, n) {
      var i :| 0 <= i < |objects| && objects[i] == x;
      assert WithShown(objects, n)[i] == x;
    }
  }

  lemma {:induction false} RelabelledHas(objects: seq<Shown>, from: Id, to: Id, o: Shown)
    requires o in objects
    ensures (if o.id == from then o.(id := to) else o) in RelabelledShown(objects, from, to)
    decreases |objects|
  {
    if objects[0] != o { RelabelledHas(objects[1..], from, to, o); }
  }

  /** The identity of a new stream is none that was there. */
  lemma NewIdentity(p: Policy, d: Document, e: Edit, made: Id, id: Id)
    requires FoldsDigits(p.fold) && e.Connect? && Apply(p, d, e, made).Success? && id in StreamIds(d.streams)
    ensures id != made
  {
    ApplyIsChecked(p, d, e, made);
    ApplyConnectShape(p, d, e, made);
    hide Apply, Check;
    LastIsDistinct(p, Apply(p, d, e, made).value, d.streams, NewStream(e, made));
    var i :| 0 <= i < |d.streams| && StreamIds(d.streams)[i] == id;
    assert d.streams[i].id == id;
  }

  /** The segment from the source keeps the stream's identity, and begins without lineage; each branch
      of a split remembers the stream and its letter when branches are to have suffixes, and has the
      stream's tag with the letter unless that would clash. */
  lemma SplitNames(p: Policy, d: Document, id: Id, layout: nat, target: Id, port: string, made: seq<Id>)
    requires FoldsDigits(p.fold) && |made| == 4 && SplitStream(p, d, id, layout, target, port, made).Success?
    ensures FindShown(d.objects, id).Some?
    ensures var parent := FindShown(d.objects, id).value;
      var r := SplitStream(p, d, id, layout, target, port, made).value;
      var suffixed := d.settings.suffixed;
      && (exists u :: u in r.objects && u.id == id && u.parent == u.suffix == None
                      && (!d.settings.nextAvailable ==> u.tag == parent.tag))
      && (exists a :: a in r.objects && Branch(a, made[2], parent, "(a)", suffixed)
                      && (suffixed && !d.settings.nextAvailable ==> a.tag == parent.tag + "(a)"))
      && (exists b :: b in r.objects && Branch(b, made[3], parent, "(b)", suffixed)
                      && (suffixed && !d.settings.nextAvailable ==> b.tag == parent.tag + "(b)"))
  {
    hide Split, Apply, Branched, Check, FindShown, NewTag, FindStream, Relabelled, RelabelledShown;
    RecoveredKeeps(d);
    var s, parent, w1, w2, w3, w4, w5, w6 := SplitHasSteps(p, Recovered(d), id, layout, target, port, made);
    hide Recovered;
    var suffixed := d.settings.suffixed;
    var r := SplitStream(p, d, id, layout, target, port, made).value;
    KeepsSettings(p, Recovered(d), Remove([id], true), "");
    KeepsSettings(p, w1, Add("splitter", layout), made[0]);
    var u := UpstreamShows(p, w2, s, parent, made, w3, w4, w5);
    var first, second := Connect(made[0], "out-0", s.target, InPort(s)), Connect(made[0], "out-1", target, port);
    BranchShape(p, w5, made[0], "out-0", s.target, InPort(s), parent, "(a)", suffixed, made[2]);
    NewIdentity(p, w5, first, made[2], id);
    BranchShows(p, w5, made[0], "out-0", s.target, InPort(s), parent, "(a)", suffixed, made[2]);
    var a :| && Branch(a, made[2], parent, "(a)", suffixed) && a in w6.objects
             && (suffixed && !w5.settings.nextAvailable ==> a.tag == parent.tag + "(a)");
    LastIsThere(w6.streams, w5.streams, Stream(made[2], made[0], s.target, Some("out-0"), Some(InPort(s))), id);
    BranchShape(p, w6, made[0], "out-1", target, port, parent, "(b)", suffixed, made[3]);
    NewIdentity(p, w6, second, made[3], id);
    NewIdentity(p, w6, second, made[3], made[2]);
    BranchShows(p, w6, made[0], "out-1", target, port, parent, "(b)", suffixed, made[3]);
    assert u in r.objects && a in r.objects;
  }

  lemma LastIsThere(all: seq<Stream>, front: seq<Stream>, last: Stream, id: Id)
    requires all == front + [last] && id in StreamIds(front)
    ensures last.id in StreamIds(all) && id in StreamIds(all)
  {
    assert StreamIds(all)[|front|] == last.id;
    var i :| 0 <= i < |front| && StreamIds(front)[i] == id;
    assert StreamIds(all)[i] == all[i].id == front[i].id;
  }

  /** The segment from the source, once it has its name and the stream's identity. */
  lemma UpstreamShows(p: Policy, w2: Document, s: Stream, parent: Shown, made: seq<Id>, w3: Document, w4: Document,
      w5: Document) returns (u: Shown)
    requires FoldsDigits(p.fold) && |made| == 4
    requires Apply(p, w2, Connect(s.source, OutPort(s), made[0], "in-0"), made[1]) == Success(w3)
    requires Apply(p, w3, Rename(made[1], parent.tag, false, true), "") == Success(w4)
    requires w5 == w4.(streams := Relabelled(w4.streams, made[1], s.id),
                       objects := RelabelledShown(w4.objects, made[1], s.id))
    ensures u in w5.objects && u.id == s.id && u.parent == u.suffix == None
    ensures !w2.settings.nextAvailable ==> u.tag == parent.tag
    ensures s.id in StreamIds(w5.streams) && w5.settings == w2.settings
  {
    hide Apply, Check, NewTag, FindShown, RelabelledShown;
    var e := Connect(s.source, OutPort(s), made[0], "in-0");
    ConnectShows(p, w2, e, made[1]);
    ApplyConnectShape(p, w2, e, made[1]);
    RenameShows(p, w3, made[1], parent.tag);
    RenameKeepsSettings(p, w3, made[1], parent.tag);
    PresentationKeepsEngineering(p, w3, Rename(made[1], parent.tag, false, true), "");
    var o :| o in w4.objects && o.id == made[1] && o.parent == o.suffix == None
      && o.tag == NewTag(p, Recovered(w3), made[1], parent.tag, false);
    RelabelledHas(w4.objects, made[1], s.id, o);
    u := o.(id := s.id);
    assert w5.streams[|w2.streams|].id == s.id && StreamIds(w5.streams)[|w2.streams|] == s.id;
  }

  lemma KeepsSettings(p: Policy, d: Document, e: Edit, made: Id)
    requires FoldsDigits(p.fold) && (e.Remove? || e.Add?) && Apply(p, d, e, made).Success?
    ensures Apply(p, d, e, made).value.settings == d.settings
  {
    hide Check, FirstFree, Attached;
  }
}
