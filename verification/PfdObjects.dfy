/** What removal and renaming do to the presentation: no dangling reference, and every tag. */
module PfdObjects {
  import opened Wrappers
  import opened Tags
  import opened Pfd
  import opened PfdWiring

  // ---- Removal --------------------------------------------------------------------------------

  lemma {:induction false} UnitsLeft(units: seq<Equipment>, ids: set<Id>, u: Equipment)
    ensures u in UnitsWithout(units, ids) <==> u in units && u.id !in ids
    decreases |units|
  {
    if units != [] { UnitsLeft(units[1..], ids, u); }
  }

  lemma {:induction false} ObjectsLeft(objects: seq<Shown>, ids: set<Id>, o: Shown)
    ensures o in ShownWithout(objects, ids) ==> o.id !in ids && (o.parent.Some? ==> o.parent.value !in ids)
    ensures o in objects && o.id !in ids && (o.parent.Some? ==> o.parent.value !in ids) ==>
      o in ShownWithout(objects, ids)
    decreases |objects|
  {
    if objects != [] { ObjectsLeft(objects[1..], ids, o); }
  }

  lemma {:induction false} MembersLeft(members: seq<Id>, ids: set<Id>, id: Id)
    ensures id in MembersWithout(members, ids) <==> id in members && id !in ids
    decreases |members|
  {
    if members != [] { MembersLeft(members[1..], ids, id); }
  }

  lemma {:induction false} GroupsLeft(groups: seq<Group>, ids: set<Id>)
    ensures |GroupsWithout(groups, ids)| == |groups|
    ensures forall i :: 0 <= i < |groups| ==>
      GroupsWithout(groups, ids)[i] == groups[i].(members := MembersWithout(groups[i].members, ids))
    decreases |groups|
  {
    if groups != [] { GroupsLeft(groups[1..], ids); }
  }

  /** What a removal takes: the selection and every stream attached to it. */
  function Gone(d: Document, ids: seq<Id>): set<Id> {
    var selected := set id | id in ids;
    selected + Attached(d.streams, selected)
  }

  ghost predicate Keeps(groups: seq<Group>, left: seq<Group>, gone: set<Id>) {
    && |left| == |groups|
    && forall i :: 0 <= i < |groups| ==>
         left[i].id == groups[i].id && forall id :: id in left[i].members <==> id in groups[i].members && id !in gone
  }

  lemma GroupsKeep(groups: seq<Group>, ids: set<Id>)
    ensures Keeps(groups, GroupsWithout(groups, ids), ids)
  {
    GroupsLeft(groups, ids);
    forall i, id | 0 <= i < |groups|
      ensures id in GroupsWithout(groups, ids)[i].members <==> id in groups[i].members && id !in ids
    {
      MembersLeft(groups[i].members, ids, id);
    }
  }

  /** An accepted removal takes exactly the selection and its streams, and leaves no reference to
      what it took: in no group, no subsystem and no lineage. */
  lemma RemovalIsClean(p: Policy, d: Document, ids: seq<Id>, confirmed: bool)
    requires Removed(p, d, ids, confirmed).Success?
    ensures var r := Removed(p, d, ids, confirmed).value;
      var gone := Gone(d, ids);
      && (forall u :: u in r.units <==> u in d.units && u.id !in gone)
      && (forall s :: s in r.streams <==> s in d.streams && s.id !in gone)
      && (forall o :: o in r.objects ==> o.id !in gone && (o.parent.Some? ==> o.parent.value !in gone))
      && Keeps(d.groups, r.groups, gone) && Keeps(d.subsystems, r.subsystems, gone)
    ensures Attached(d.streams, set id | id in ids) != {} ==> confirmed
  {
    var gone := Gone(d, ids);
    hide Check, Attached;
    var r := Removed(p, d, ids, confirmed).value;
    forall u ensures u in r.units <==> u in d.units && u.id !in gone { UnitsLeft(d.units, gone, u); }
    forall s ensures s in r.streams <==> s in d.streams && s.id !in gone { FilterKeepsMembers(d.streams, gone, s); }
    forall o | o in r.objects ensures o.id !in gone && (o.parent.Some? ==> o.parent.value !in gone) {
      ObjectsLeft(d.objects, gone, o);
    }
    GroupsKeep(d.groups, gone);
    GroupsKeep(d.subsystems, gone);
  }

  // ---- Renaming -------------------------------------------------------------------------------

  lemma {:induction false} WithShownAt(objects: seq<Shown>, o: Shown)
    ensures |WithShown(objects, o)| == |objects|
    ensures forall i :: 0 <= i < |objects| ==>
      WithShown(objects, o)[i] == if objects[i].id == o.id then o else objects[i]
    decreases |objects|
  {
    if objects != [] { WithShownAt(objects[1..], o); }
  }

  predicate InFamily(o: Shown, id: Id) {
    o.parent == Some(id) && o.suffix.Some? && o.suffix.value != ""
  }

  lemma {:induction false} FamilyRenamedAt(objects: seq<Shown>, id: Id, tag: string)
    ensures |FamilyRenamed(objects, id, tag)| == |objects|
    ensures forall i :: 0 <= i < |objects| ==>
      FamilyRenamed(objects, id, tag)[i]
        == if InFamily(objects[i], id) then objects[i].(tag := tag + objects[i].suffix.value) else objects[i]
    decreases |objects|
  {
    if objects != [] { FamilyRenamedAt(objects[1..], id, tag); }
  }

  /** The stream whose tag a rename takes, if another one has it. */
  function Clash(p: Policy, d: Document, id: Id, tag: string): Option<Shown> {
    if id in StreamIds(d.streams) then Conflict(p, d, d.objects, id, tag) else None
  }

  /** The tag an object gets: the named object the new one, a clashing stream the old one if they
      are swapped, and linked branches the new one with their suffix. */
  function NextTagOf(before: Shown, o: Shown, clash: Option<Shown>, swap: bool, family: bool, named: string): string {
    if before.id == o.id then named
    else if swap && clash.Some? && before.id == clash.value.id then o.tag
    else if family && InFamily(before, o.id) then named + before.suffix.value
    else before.tag
  }

  /** The tag an object has after an accepted rename. */
  predicate TagAfter(p: Policy, d: Document, id: Id, tag: string, swap: bool, family: bool, named: string,
      before: Shown, after: Shown)
    requires FindShown(d.objects, id).Some?
  {
    after.tag == NextTagOf(before, FindShown(d.objects, id).value, Clash(p, d, id, tag), swap, family, named)
  }

  /** The new tag: the one asked for, unless another stream has it and the next automatic one is
      taken instead. */
  function NewTag(p: Policy, d: Document, id: Id, tag: string, swap: bool): string
    requires FoldsDigits(p.fold)
  {
    if Clash(p, d, id, tag).Some? && !swap then TagOf(d.settings.prefix, d.settings.padding, NextStreamNumber(p, d))
      else tag
  }

  /** The object table of a rename before linked branches follow. */
  function Placed(d: Document, o: Shown, clash: Option<Shown>, swap: bool, named: string): seq<Shown> {
    var swapped :=
      if clash.Some? && swap then WithShown(d.objects, clash.value.(tag := o.tag, parent := None, suffix := None))
      else d.objects;
    WithShown(swapped, o.(tag := named, parent := None, suffix := None))
  }

  lemma RenamedTable(p: Policy, d: Document, id: Id, tag: string, swap: bool, family: bool)
    requires FoldsDigits(p.fold) && Renamed(p, d, id, tag, swap, family).Success?
    ensures FindShown(d.objects, id).Some?
    ensures Clash(p, d, id, tag).Some? && !swap ==> d.settings.nextAvailable
    ensures var placed := Placed(d, FindShown(d.objects, id).value, Clash(p, d, id, tag), swap,
      NewTag(p, d, id, tag, swap));
      Renamed(p, d, id, tag, swap, family).value.objects
        == if family then FamilyRenamed(placed, id, NewTag(p, d, id, tag, swap)) else placed
  {
    hide Check, FirstFree, WithShown, FamilyRenamed, FindShown, TagOf;
  }

  lemma PlacedAt(d: Document, o: Shown, clash: Option<Shown>, swap: bool, named: string, i: nat)
    requires i < |d.objects| && (clash.Some? ==> clash.value.id != o.id)
    ensures var placed := Placed(d, o, clash, swap, named);
      |placed| == |d.objects| && placed[i] ==
        if d.objects[i].id == o.id then o.(tag := named, parent := None, suffix := None)
        else if swap && clash.Some? && d.objects[i].id == clash.value.id then
          clash.value.(tag := o.tag, parent := None, suffix := None)
        else d.objects[i]
  {
    var swapped :=
      if clash.Some? && swap then WithShown(d.objects, clash.value.(tag := o.tag, parent := None, suffix := None))
      else d.objects;
    if clash.Some? && swap { WithShownAt(d.objects, clash.value.(tag := o.tag, parent := None, suffix := None)); }
    WithShownAt(swapped, o.(tag := named, parent := None, suffix := None));
    hide WithShown;
  }

  lemma TableTags(d: Document, o: Shown, clash: Option<Shown>, swap: bool, family: bool, named: string, i: nat)
    requires i < |d.objects| && (clash.Some? ==> clash.value.id != o.id)
    ensures var placed := Placed(d, o, clash, swap, named);
      var objects := if family then FamilyRenamed(placed, o.id, named) else placed;
      && |objects| == |d.objects| && objects[i].id == d.objects[i].id
      && objects[i].tag == NextTagOf(d.objects[i], o, clash, swap, family, named)
  {
    hide Placed, FamilyRenamed;
    FamilyRenamedAt(Placed(d, o, clash, swap, named), o.id, named);
    PlacedAt(d, o, clash, swap, named, i);
  }

  lemma ClashIsOther(p: Policy, d: Document, id: Id, tag: string)
    ensures Clash(p, d, id, tag).Some? ==> Clash(p, d, id, tag).value.id != id
    ensures FindShown(d.objects, id).Some? ==> FindShown(d.objects, id).value.id == id && d.objects != []
  {
  }

  /** Every tag after an accepted rename: the object has its new tag; a clashing stream has the old
      one if a swap was asked for; linked branches follow if asked to; nothing else is renamed. A
      clash without a swap is accepted only where the next free tag may be taken. */
  lemma RenameTags(p: Policy, d: Document, id: Id, tag: string, swap: bool, family: bool)
    requires FoldsDigits(p.fold) && Renamed(p, d, id, tag, swap, family).Success?
    ensures FindShown(d.objects, id).Some?
    ensures var r := Renamed(p, d, id, tag, swap, family).value;
      |r.objects| == |d.objects| && forall i :: 0 <= i < |d.objects| ==>
        r.objects[i].id == d.objects[i].id
        && TagAfter(p, d, id, tag, swap, family, NewTag(p, d, id, tag, swap), d.objects[i], r.objects[i])
    ensures Clash(p, d, id, tag).Some? && !swap ==> d.settings.nextAvailable
  {
    RenamedTable(p, d, id, tag, swap, family);
    ClashIsOther(p, d, id, tag);
    hide Renamed, Placed, FamilyRenamed, NewTag, Clash, FindShown, NextTagOf;
    var o, clash, named := FindShown(d.objects, id).value, Clash(p, d, id, tag), NewTag(p, d, id, tag, swap);
    TableTags(d, o, clash, swap, family, named, 0);
    forall i | 0 <= i < |d.objects| { TableTags(d, o, clash, swap, family, named, i); }
  }
}
