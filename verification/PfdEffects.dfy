/** What each accepted elementary edit changes, and that it changes nothing else. */
module PfdEffects {
  import opened Wrappers
  import opened Tags
  import opened Pfd
  import opened PfdWiring
  import opened PfdObjects

  // ---- Lists ----------------------------------------------------------------------------------

  lemma {:induction false} ExceptHas(groups: seq<Group>, id: Id, g: Group)
    ensures g in GroupsExcept(groups, id) <==> g in groups && g.id != id
    decreases |groups|
  {
    if groups != [] { ExceptHas(groups[1..], id, g); }
  }

  lemma {:induction false} WithinHas(members: seq<Id>, ids: seq<Id>, id: Id)
    ensures id in MembersWithin(members, ids) <==> id in members && id in ids
    decreases |members|
  {
    if members != [] { WithinHas(members[1..], ids, id); }
  }

  lemma {:induction false} GroupsWithinAt(groups: seq<Group>, ids: seq<Id>)
    ensures |GroupsWithin(groups, ids)| == |groups|
    ensures forall i :: 0 <= i < |groups| ==>
      GroupsWithin(groups, ids)[i] == groups[i].(members := MembersWithin(groups[i].members, ids))
    decreases |groups|
  {
    if groups != [] { GroupsWithinAt(groups[1..], ids); }
  }

  lemma {:induction false} WithInputsAt(units: seq<Equipment>, id: Id, inputs: nat)
    requires Distinct(UnitIds(units))
    ensures |WithInputs(units, id, inputs)| == |units|
    ensures forall i :: 0 <= i < |units| ==>
      WithInputs(units, id, inputs)[i] == if units[i].id == id then units[i].(inputs := inputs) else units[i]
    decreases |units|
  {
    if units != [] {
      assert forall i :: 0 <= i < |units| - 1 ==> UnitIds(units[1..])[i] == UnitIds(units)[i + 1];
      if units[0].id == id {
        assert forall i :: 0 < i < |units| ==> UnitIds(units)[i] != UnitIds(units)[0];
      } else {
        WithInputsAt(units[1..], id, inputs);
      }
    }
  }

  // ---- Recovery -------------------------------------------------------------------------------

  /** Recovery drops the members of groups that are no streams, and an active group that is none; it
      touches nothing else. */
  lemma RecoveredIs(d: Document)
    ensures var r := Recovered(d);
      && r == d.(groups := r.groups, activeGroup := r.activeGroup) && |r.groups| == |d.groups|
      && (forall i :: 0 <= i < |d.groups| ==>
            && r.groups[i].id == d.groups[i].id
            && forall id :: id in r.groups[i].members <==> id in d.groups[i].members && id in StreamIds(d.streams))
      && (r.activeGroup == d.activeGroup || (r.activeGroup == None && d.activeGroup.value !in GroupIds(d.groups)))
      && (r.activeGroup.Some? ==> r.activeGroup.value in GroupIds(d.groups))
  {
    GroupsWithinAt(d.groups, StreamIds(d.streams));
    var r := Recovered(d);
    hide GroupsWithin, MembersWithin;
    forall i | 0 <= i < |d.groups|
      ensures r.groups[i].id == d.groups[i].id
      ensures forall id :: id in r.groups[i].members <==> id in d.groups[i].members && id in StreamIds(d.streams)
    {
      forall id { WithinHas(d.groups[i].members, StreamIds(d.streams), id); }
    }
  }

  // ---- Equipment and streams ------------------------------------------------------------------

  /** An addition appends the unit, and its object at the layout, with the first tag from 1 on of the
      model's title that no object has, ignoring case. */
  lemma AddDoes(p: Policy, d: Document, model: string, layout: nat, made: Id)
    requires FoldsDigits(p.fold) && Apply(p, d, Add(model, layout), made).Success?
    ensures model in p.catalogue
    ensures var b, r := Recovered(d), Apply(p, d, Add(model, layout), made).value;
      && r == b.(units := r.units, objects := r.objects) && r.units == d.units + [Equipment(made, model, 0)]
      && |r.objects| == |d.objects| + 1 && r.objects[..|d.objects|] == d.objects
      && var o, prefix := r.objects[|d.objects|], p.catalogue[model].title + "-";
      && o.id == made && o.layout == layout && o.parent == o.suffix == None
      && exists n :: o.tag == TagOf(prefix, 3, n) && IsFirstFree(p.fold, prefix, 3, FoldedTags(p.fold, d.objects), 1, n)
  {
    hide Check, FirstFree, TagOf, FoldedTags;
    var n := FirstFree(p.fold, p.catalogue[model].title + "-", 3, FoldedTags(p.fold, d.objects), 1);
    assert IsFirstFree(p.fold, p.catalogue[model].title + "-", 3, FoldedTags(p.fold, d.objects), 1, n);
  }

  /** A connection appends the stream, and its object with the first free number from the next one
      and the start on; the number after it is the next. */
  lemma ConnectDoes(p: Policy, d: Document, e: Edit, made: Id)
    requires FoldsDigits(p.fold) && e.Connect? && Apply(p, d, e, made).Success?
    ensures var b, r := Recovered(d), Apply(p, d, e, made).value;
      && r == b.(streams := r.streams, objects := r.objects, nextNumber := r.nextNumber)
      && r.streams == d.streams + [Stream(made, e.source, e.target, Some(e.sourcePort), Some(e.targetPort))]
      && exists n :: && r.nextNumber == n + 1
                     && r.objects == d.objects
                          + [Shown(made, TagOf(d.settings.prefix, d.settings.padding, n), None, None, 0)]
                     && IsFirstFree(p.fold, d.settings.prefix, d.settings.padding, FoldedTags(p.fold, d.objects),
                                    if d.nextNumber > d.settings.start then d.nextNumber else d.settings.start, n)
  {
    hide Check, FreePort, FirstFree, FoldedTags, TagOf;
    var n := NextStreamNumber(p, Recovered(d));
    assert Apply(p, d, e, made).value.nextNumber == n + 1;
  }

  /** A configuration replaces the inputs of the one unit. */
  lemma ConfigureDoes(p: Policy, d: Document, id: Id, inputs: Option<nat>, made: Id)
    requires FoldsDigits(p.fold) && Apply(p, d, Configure(id, inputs), made).Success?
    ensures inputs.Some? && id in UnitIds(d.units)
    ensures var b, r := Recovered(d), Apply(p, d, Configure(id, inputs), made).value;
      && r == b.(units := r.units) && |r.units| == |d.units|
      && forall i :: 0 <= i < |d.units| ==>
           r.units[i] == if d.units[i].id == id then d.units[i].(inputs := inputs.value) else d.units[i]
  {
    DistinctUnits(p, Recovered(d));
    hide Check, WithInputs;
    WithInputsAt(d.units, id, inputs.value);
  }

  lemma DistinctUnits(p: Policy, d: Document)
    requires Check(p, d)
    ensures Distinct(UnitIds(d.units))
  {
    forall i, j | 0 <= i < j < |d.units| ensures UnitIds(d.units)[i] != UnitIds(d.units)[j] {
      assert ObjectIds(d)[i] == UnitIds(d.units)[i] && ObjectIds(d)[j] == UnitIds(d.units)[j];
    }
  }

  lemma {:induction false} ObjectStays(objects: seq<Shown>, ids: set<Id>, o: Shown)
    requires o in objects && o.id !in ids
    ensures (if o.parent.Some? && o.parent.value in ids then o.(parent := None, suffix := None) else o)
         in ShownWithout(objects, ids)
    decreases |objects|
  {
    if objects[0] != o { ObjectStays(objects[1..], ids, o); }
  }

  /** A removal keeps every object that stays, without a lineage whose parent went; settings, numbers
      and the active group are as they were. */
  lemma RemovalKeeps(p: Policy, d: Document, ids: seq<Id>, confirmed: bool, o: Shown)
    requires Removed(p, d, ids, confirmed).Success? && o in d.objects && o.id !in Gone(d, ids)
    ensures var r := Removed(p, d, ids, confirmed).value;
      && (if o.parent.Some? && o.parent.value in Gone(d, ids) then o.(parent := None, suffix := None)
        else o) in r.objects
      && r.settings == d.settings && r.nextNumber == d.nextNumber && r.activeGroup == d.activeGroup
  {
    hide Check, Attached, ShownWithout;
    ObjectStays(d.objects, Gone(d, ids), o);
  }

  // ---- Presentation ---------------------------------------------------------------------------

  /** Arranging an object changes its layout and nothing else. */
  lemma ArrangeDoes(p: Policy, d: Document, id: Id, layout: nat, made: Id)
    requires FoldsDigits(p.fold) && Apply(p, d, Arrange(id, layout), made).Success?
    ensures id in ShownIds(d.objects)
    ensures var b, r := Recovered(d), Apply(p, d, Arrange(id, layout), made).value;
      && b.objects == d.objects && r == b.(objects := r.objects) && |r.objects| == |d.objects|
      && forall i :: 0 <= i < |d.objects| ==>
           r.objects[i] == if d.objects[i].id == id then d.objects[i].(layout := layout) else d.objects[i]
  {
    DistinctObjects(p, Recovered(d));
    hide Check, Recovered, WithShown;
    WithShownAt(d.objects, FindShown(d.objects, id).value.(layout := layout));
    FoundOnce(d.objects, id);
    hide FindShown;
  }

  /** The object found is the only one of its identity. */
  lemma FoundOnce(objects: seq<Shown>, id: Id)
    requires FindShown(objects, id).Some? && forall i, j :: 0 <= i < j < |objects| ==> objects[i].id != objects[j].id
    ensures forall i :: 0 <= i < |objects| && objects[i].id == id ==> objects[i] == FindShown(objects, id).value
    ensures id in ShownIds(objects)
  {
    var o := FindShown(objects, id).value;
    var k :| 0 <= k < |objects| && objects[k] == o;
    assert ShownIds(objects)[k] == id;
  }

  /** A checked document shows each object once. */
  lemma DistinctObjects(p: Policy, d: Document)
    requires Check(p, d)
    ensures forall i, j :: 0 <= i < j < |d.objects| ==> d.objects[i].id != d.objects[j].id
  {
    AllOnce(ObjectIds(d), ShownIds(d.objects));
    forall i, j | 0 <= i < j < |d.objects| ensures d.objects[i].id != d.objects[j].id {
      assert ShownIds(d.objects)[i] == d.objects[i].id && ShownIds(d.objects)[j] == d.objects[j].id;
    }
  }

  function Elements(xs: seq<Id>): set<Id> {
    set x | x in xs
  }

  lemma {:induction false} ElementsAtMost(xs: seq<Id>)
    ensures |Elements(xs)| <= |xs|
    ensures Distinct(xs) <==> |Elements(xs)| == |xs|
    decreases |xs|
  {
    if xs != [] {
      var n := |xs| - 1;
      ElementsAtMost(xs[..n]);
      assert xs == xs[..n] + [xs[n]];
      assert Elements(xs) == Elements(xs[..n]) + {xs[n]};
      if xs[n] in xs[..n] {
        var k :| 0 <= k < n && xs[..n][k] == xs[n];
        assert Elements(xs) == Elements(xs[..n]) && xs[k] == xs[n];
      } else {
        assert Distinct(xs[..n]) ==> Distinct(xs);
      }
    }
  }

  /** A list as long as one without repetition, with the same elements, repeats none. */
  lemma AllOnce(xs: seq<Id>, ys: seq<Id>)
    requires Distinct(xs) && |xs| == |ys| && (forall x :: x in xs ==> x in ys) && (forall y :: y in ys ==> y in xs)
    ensures Distinct(ys)
  {
    ElementsAtMost(xs);
    ElementsAtMost(ys);
    assert Elements(xs) == Elements(ys);
  }

  /** Settings are replaced as a whole. */
  lemma RestyleDoes(p: Policy, d: Document, settings: Settings, made: Id)
    requires FoldsDigits(p.fold) && Apply(p, d, Restyle(settings), made).Success?
    ensures Apply(p, d, Restyle(settings), made).value == Recovered(d).(settings := settings)
  {
    hide Check;
  }

  /** An upserted group is there as it is given, in the place of the one with its identity; every
      other stays. */
  lemma UpsertGroupDoes(p: Policy, d: Document, group: Group, made: Id)
    requires FoldsDigits(p.fold) && Apply(p, d, UpsertGroup(group), made).Success?
    ensures var b, r := Recovered(d), Apply(p, d, UpsertGroup(group), made).value;
      && r == b.(groups := r.groups)
      && forall g :: g in r.groups <==> g == group || (g in b.groups && g.id != group.id)
  {
    hide Check, Recovered;
    var b := Recovered(d);
    forall g ensures g in GroupsExcept(b.groups, group.id) + [group] <==>
      g == group || (g in b.groups && g.id != group.id) {
      ExceptHas(b.groups, group.id, g);
    }
  }

  /** A removed group was there and is gone, and is no longer the active one; every other stays. */
  lemma RemoveGroupDoes(p: Policy, d: Document, group: Id, made: Id)
    requires FoldsDigits(p.fold) && Apply(p, d, RemoveGroup(group), made).Success?
    ensures var b, r := Recovered(d), Apply(p, d, RemoveGroup(group), made).value;
      && r == b.(groups := r.groups, activeGroup := r.activeGroup)
      && group in GroupIds(b.groups) && group !in GroupIds(r.groups)
      && (forall g :: g in r.groups <==> g in b.groups && g.id != group)
      && (b.activeGroup == Some(group) ==> r.activeGroup == None)
      && (b.activeGroup != Some(group) ==> r.activeGroup == b.activeGroup)
  {
    hide Check, Recovered;
    var b, r := Recovered(d), Apply(p, d, RemoveGroup(group), made).value;
    forall g ensures g in r.groups <==> g in b.groups && g.id != group { ExceptHas(b.groups, group, g); }
    forall i | 0 <= i < |r.groups| ensures GroupIds(r.groups)[i] != group { assert r.groups[i] in r.groups; }
  }

  lemma ActivateDoes(p: Policy, d: Document, active: Option<Id>, made: Id)
    requires FoldsDigits(p.fold) && Apply(p, d, Activate(active), made).Success?
    ensures Apply(p, d, Activate(active), made).value == Recovered(d).(activeGroup := active)
    ensures active.Some? ==> active.value in GroupIds(Recovered(d).groups)
  {
  }

  lemma UpsertSubsystemDoes(p: Policy, d: Document, subsystem: Group, made: Id)
    requires FoldsDigits(p.fold) && Apply(p, d, UpsertSubsystem(subsystem), made).Success?
    ensures var b, r := Recovered(d), Apply(p, d, UpsertSubsystem(subsystem), made).value;
      && r == b.(subsystems := r.subsystems)
      && forall g :: g in r.subsystems <==> g == subsystem || (g in d.subsystems && g.id != subsystem.id)
  {
    hide Check;
    forall g
      ensures g in GroupsExcept(d.subsystems, subsystem.id) + [subsystem]
         <==> g == subsystem || (g in d.subsystems && g.id != subsystem.id)
    {
      ExceptHas(d.subsystems, subsystem.id, g);
    }
  }

  lemma RemoveSubsystemDoes(p: Policy, d: Document, subsystem: Id, made: Id)
    requires FoldsDigits(p.fold) && Apply(p, d, RemoveSubsystem(subsystem), made).Success?
    ensures var b, r := Recovered(d), Apply(p, d, RemoveSubsystem(subsystem), made).value;
      && r == b.(subsystems := r.subsystems)
      && subsystem in GroupIds(d.subsystems) && subsystem !in GroupIds(r.subsystems)
      && forall g :: g in r.subsystems <==> g in d.subsystems && g.id != subsystem
  {
    hide Check;
    var r := Apply(p, d, RemoveSubsystem(subsystem), made).value;
    forall g ensures g in r.subsystems <==> g in d.subsystems && g.id != subsystem {
      ExceptHas(d.subsystems, subsystem, g);
    }
    forall i | 0 <= i < |r.subsystems| ensures GroupIds(r.subsystems)[i] != subsystem {
      assert r.subsystems[i] in r.subsystems;
    }
  }

  // ---- Refusals -------------------------------------------------------------------------------

  /** A port of a unit's model that some stream may still take. */
  predicate Open(p: Policy, d: Document, id: Id, name: string, direction: Direction) {
    && id in UnitIds(d.units)
    && PortOf(p.catalogue, d.units, id, name, direction).Some?
    && Occupied(d.streams, id, name) < PortOf(p.catalogue, d.units, id, name, direction).value.maximum
  }

  lemma FreeIffOpen(p: Policy, d: Document, id: Id, name: string, direction: Direction)
    ensures FreePort(p, d, id, name, direction).Success? <==> Open(p, d, id, name, direction)
    ensures FreePort(p, d, id, name, direction).Success? ==>
      FreePort(p, d, id, name, direction).value == PortOf(p.catalogue, d.units, id, name, direction).value
    ensures FreePort(p, d, id, name, direction) == Failure(PortOccupied) <==>
      && id in UnitIds(d.units) && PortOf(p.catalogue, d.units, id, name, direction).Some?
      && !Open(p, d, id, name, direction)
    ensures FreePort(p, d, id, name, direction).Failure? ==>
      FreePort(p, d, id, name, direction).error in {Missing, PortDirection, PortOccupied}
  {
  }

  /** A connection joins two units at an open output and an open input of one medium; each thing that
      stands in its way has its own refusal. */
  lemma ConnectRefusedBecause(p: Policy, d: Document, e: Edit, made: Id)
    requires FoldsDigits(p.fold) && e.Connect? && Check(p, Recovered(d))
    ensures var r := Apply(p, d, e, made);
      var out := Open(p, d, e.source, e.sourcePort, Output);
      var into := Open(p, d, e.target, e.targetPort, Input);
      && (r == Failure(SelfConnection) <==> e.source == e.target)
      && (r.Success? ==> e.source != e.target && out && into)
      && (r == Failure(PortKind) <==>
            && e.source != e.target && out && into
            && PortOf(p.catalogue, d.units, e.source, e.sourcePort, Output).value.medium
               != PortOf(p.catalogue, d.units, e.target, e.targetPort, Input).value.medium)
      && (r.Failure? && r.error !in {Missing, PortDirection, PortOccupied} ==> e.source == e.target || (out && into))
  {
    hide Check, FreePort, FirstFree, PortOf, Occupied;
    FreeIffOpen(p, Recovered(d), e.source, e.sourcePort, Output);
    FreeIffOpen(p, Recovered(d), e.target, e.targetPort, Input);
  }

  /** What is not there is missing, and attached streams are only removed when that is confirmed. */
  lemma MissingIsRefused(p: Policy, d: Document, e: Edit, made: Id)
    requires FoldsDigits(p.fold) && Check(p, Recovered(d))
    ensures var r, b := Apply(p, d, e, made), Recovered(d);
      match e
      case Add(model, _) => r == Failure(Missing) <==> model !in p.catalogue
      case Remove(ids, confirmed) =>
        && (r == Failure(Missing) <==> exists id :: id in ids && id !in ShownIds(d.objects))
        && (r == Failure(ConnectedDelete) <==>
              && (forall id :: id in ids ==> id in ShownIds(d.objects)) && !confirmed
              && exists s :: s in d.streams && (s.source in ids || s.target in ids))
      case Configure(id, inputs) =>
        && (r == Failure(Missing) <==> id !in UnitIds(d.units))
        && (r == Failure(InvalidInput) <==> id in UnitIds(d.units) && inputs.None?)
      case Rename(id, _, _, _) => r == Failure(Missing) <==> id !in ShownIds(d.objects)
      case Arrange(id, _) => r == Failure(Missing) <==> id !in ShownIds(d.objects)
      case RemoveGroup(id) => r == Failure(Missing) <==> id !in GroupIds(b.groups)
      case RemoveSubsystem(id) => r == Failure(Missing) <==> id !in GroupIds(d.subsystems)
      case Connect(_, _, _, _) => true
      case _ => r != Failure(Missing)
  {
    hide Check, FirstFree, GroupsWithin, FamilyRenamed, WithShown, Conflict, FoldedTags;
    if e.Rename? || e.Arrange? { FoundIffShown(d.objects, e.id); }
    if e.Remove? { AttachedIff(d.streams, e.ids); }
  }

  lemma {:induction false} FoundIffShown(objects: seq<Shown>, id: Id)
    ensures FindShown(objects, id).Some? <==> id in ShownIds(objects)
    decreases |objects|
  {
    if objects != [] { FoundIffShown(objects[1..], id); }
  }

  lemma AttachedIff(streams: seq<Stream>, ids: seq<Id>)
    ensures Attached(streams, set id | id in ids) != {} <==>
      exists s :: s in streams && (s.source in ids || s.target in ids)
  {
    var selected := set id | id in ids;
    if s :| s in streams && (s.source in ids || s.target in ids) { assert s.id in Attached(streams, selected); }
  }

  /** Nothing is edited unless the document, once recovered, passes the check. */
  lemma UncheckedIsRefused(p: Policy, d: Document, e: Edit, made: Id)
    requires FoldsDigits(p.fold) && !Check(p, Recovered(d))
    ensures Apply(p, d, e, made) == Failure(CheckFailed)
  {
  }

  // ---- Renaming -------------------------------------------------------------------------------

  /** A clash is refused exactly when neither a swap nor the next free tag may resolve it. */
  lemma ClashIsRefused(p: Policy, d: Document, id: Id, tag: string, swap: bool, family: bool, made: Id)
    requires FoldsDigits(p.fold) && Check(p, Recovered(d))
    ensures Apply(p, d, Rename(id, tag, swap, family), made) == Failure(TagConflict) <==>
      && id in ShownIds(d.objects) && Clash(p, d, id, tag).Some? && !swap && !d.settings.nextAvailable
  {
    FoundIffShown(d.objects, id);
    SameConflict(p, Recovered(d), d, d.objects, id, tag);
    hide Check, Conflict, FirstFree, WithShown, FamilyRenamed, FindShown, GroupsWithin;
  }

  lemma {:induction false} SameConflict(p: Policy, d: Document, e: Document, objects: seq<Shown>, id: Id, tag: string)
    requires d.streams == e.streams
    ensures Conflict(p, d, objects, id, tag) == Conflict(p, e, objects, id, tag)
    decreases |objects|
  {
    if objects != [] { SameConflict(p, d, e, objects[1..], id, tag); }
  }

  /** A rename moves no object; it ends the lineage of the renamed object, and of the stream swapped
      with it, and of no other. The next number moves only when a free tag was taken. */
  lemma RenameKeeps(p: Policy, d: Document, id: Id, tag: string, swap: bool, family: bool)
    requires FoldsDigits(p.fold) && Renamed(p, d, id, tag, swap, family).Success?
    ensures var r, clash := Renamed(p, d, id, tag, swap, family).value, Clash(p, d, id, tag);
      && r == d.(objects := r.objects, nextNumber := r.nextNumber) && |r.objects| == |d.objects|
      && (r.nextNumber != d.nextNumber ==> clash.Some? && !swap)
      && forall i :: 0 <= i < |d.objects| ==> LineageAfter(d.objects[i], id, clash, swap, r.objects[i])
  {
    RenamedTable(p, d, id, tag, swap, family);
    RenamedOnly(p, d, id, tag, swap, family);
    ClashIsOther(p, d, id, tag);
    hide Renamed, FamilyRenamed, NewTag, Clash, FindShown, Placed, LineageAfter;
    var o, clash, named := FindShown(d.objects, id).value, Clash(p, d, id, tag), NewTag(p, d, id, tag, swap);
    TableLineage(d, o, clash, swap, family, named, 0);
    forall i | 0 <= i < |d.objects| { TableLineage(d, o, clash, swap, family, named, i); }
  }

  /** The renamed object, and a stream swapped with it, lose their lineage; any other keeps it and
      its layout. */
  predicate LineageAfter(before: Shown, id: Id, clash: Option<Shown>, swap: bool, after: Shown) {
    if before.id == id || (swap && clash.Some? && before.id == clash.value.id) then
      after.parent == after.suffix == None
    else after.parent == before.parent && after.suffix == before.suffix && after.layout == before.layout
  }

  lemma TableLineage(d: Document, o: Shown, clash: Option<Shown>, swap: bool, family: bool, named: string, i: nat)
    requires i < |d.objects| && (clash.Some? ==> clash.value.id != o.id)
    ensures var placed := Placed(d, o, clash, swap, named);
      var objects := if family then FamilyRenamed(placed, o.id, named) else placed;
      |objects| == |d.objects| && LineageAfter(d.objects[i], o.id, clash, swap, objects[i])
  {
    hide Placed, FamilyRenamed;
    FamilyRenamedAt(Placed(d, o, clash, swap, named), o.id, named);
    PlacedAt(d, o, clash, swap, named, i);
  }

  lemma RenamedOnly(p: Policy, d: Document, id: Id, tag: string, swap: bool, family: bool)
    requires FoldsDigits(p.fold) && Renamed(p, d, id, tag, swap, family).Success?
    ensures var r := Renamed(p, d, id, tag, swap, family).value;
      && r == d.(objects := r.objects, nextNumber := r.nextNumber)
      && (r.nextNumber != d.nextNumber ==> Clash(p, d, id, tag).Some? && !swap)
  {
    hide Check, FirstFree, WithShown, FamilyRenamed, FindShown, Conflict;
  }

  // ---- What is accepted -----------------------------------------------------------------------

  /** Between one and sixty-four printable characters without outer spaces. */
  predicate GoodTag(p: Policy, tag: string) {
    && 1 <= |tag| <= 64 && !p.space(tag[0]) && !p.space(tag[|tag| - 1])
    && forall c :: c in tag ==> c as int >= 32
  }

  lemma GoodIsValid(p: Policy, tag: string)
    ensures GoodTag(p, tag) <==> ValidTag(p, tag)
  {
    assert forall i :: 0 <= i < |tag| ==> tag[i] in tag;
  }

  /** Every tag of an accepted result is good, whatever the edit. */
  lemma TagsAreGood(p: Policy, d: Document, e: Edit, made: Id, o: Shown)
    requires FoldsDigits(p.fold) && Apply(p, d, e, made).Success? && o in Apply(p, d, e, made).value.objects
    ensures GoodTag(p, o.tag)
  {
    hide *;
    ApplyIsChecked(p, d, e, made);
    CheckedTags(p, Apply(p, d, e, made).value, o);
  }

  lemma CheckedTags(p: Policy, d: Document, o: Shown)
    requires Check(p, d) && o in d.objects
    ensures GoodTag(p, o.tag)
  {
    GoodIsValid(p, o.tag);
  }

  lemma CheckedTagsDiffer(p: Policy, d: Document, a: Shown, b: Shown)
    requires Check(p, d) && a in d.objects && b in d.objects
    requires a.id in StreamIds(d.streams) && b.id in StreamIds(d.streams)
    ensures a != b ==> Folded(p.fold, a.tag) != Folded(p.fold, b.tag)
  {
  }

  /** No two streams of an accepted result have one tag, ignoring case. */
  lemma StreamTagsDiffer(p: Policy, d: Document, e: Edit, made: Id, a: Shown, b: Shown)
    requires FoldsDigits(p.fold) && Apply(p, d, e, made).Success?
    requires var r := Apply(p, d, e, made).value;
      a in r.objects && b in r.objects && a.id in StreamIds(r.streams) && b.id in StreamIds(r.streams)
    ensures a != b ==> Folded(p.fold, a.tag) != Folded(p.fold, b.tag)
  {
    hide *;
    ApplyIsChecked(p, d, e, made);
    CheckedTagsDiffer(p, Apply(p, d, e, made).value, a, b);
  }

  /** What no accepted result has, and no document that is edited: a repeated or empty identity, an
      object that is not shown once, a group with a member that is no stream, a subsystem with a
      member that is no object, an active group that is none. */
  lemma DamagedIsRefused(p: Policy, d: Document, e: Edit, made: Id)
    requires FoldsDigits(p.fold)
    requires var b := Recovered(d);
      || !Distinct(GroupIds(b.groups)) || !Distinct(GroupIds(b.subsystems))
      || !Distinct(ObjectIds(b)) || "" in ObjectIds(b)
      || (exists g, id :: g in b.subsystems && id in g.members && id !in ObjectIds(b))
      || (exists id :: id in ShownIds(b.objects) && id !in ObjectIds(b))
      || (exists id :: id in ObjectIds(b) && id !in ShownIds(b.objects))
      || (exists o :: o in b.objects && !GoodTag(p, o.tag))
    ensures Apply(p, d, e, made) == Failure(CheckFailed)
  {
    if o :| o in Recovered(d).objects && !GoodTag(p, o.tag) { GoodIsValid(p, o.tag); }
  }

  /** The streams and objects of the document stay what they are; only its presentation differs. */
  predicate SameObjects(a: Document, b: Document) {
    a.units == b.units && a.streams == b.streams && a.objects == b.objects
  }

  lemma CheckIff(p: Policy, a: Document, b: Document)
    requires SameObjects(a, b) && Check(p, a)
    ensures Check(p, b) <==>
      && Distinct(GroupIds(b.groups)) && (b.activeGroup.Some? ==> b.activeGroup.value in GroupIds(b.groups))
      && (forall g :: g in b.groups ==> forall id :: id in g.members ==> id in StreamIds(b.streams))
      && Distinct(GroupIds(b.subsystems))
      && (forall g :: g in b.subsystems ==> forall id :: id in g.members ==> id in ObjectIds(b))
  {
    assert TagsUnique(p, a) <==> TagsUnique(p, b);
  }

  lemma {:induction false} ExceptDistinct(groups: seq<Group>, id: Id)
    requires Distinct(GroupIds(groups))
    ensures Distinct(GroupIds(GroupsExcept(groups, id)))
    ensures forall k :: k in GroupIds(GroupsExcept(groups, id)) <==> k in GroupIds(groups) && k != id
    decreases |groups|
  {
    if groups != [] {
      var head, rest := groups[0].id, GroupIds(groups[1..]);
      var left := GroupIds(GroupsExcept(groups[1..], id));
      assert GroupIds(groups) == [head] + rest;
      HeadDistinct(head, rest);
      ExceptDistinct(groups[1..], id);
      HeadDistinct(head, left);
      assert GroupsExcept(groups, id) ==
        (if head == id then [] else [groups[0]]) + GroupsExcept(groups[1..], id);
      assert GroupIds(GroupsExcept(groups, id)) == (if head == id then [] else [head]) + left;
      hide GroupIds, GroupsExcept, Distinct;
    }
  }

  lemma HeadDistinct(x: Id, ys: seq<Id>)
    ensures Distinct([x] + ys) <==> Distinct(ys) && x !in ys
  {
    var all := [x] + ys;
    assert forall i :: 0 <= i < |ys| ==> all[i + 1] == ys[i];
    if Distinct(all) {
      forall i, j | 0 <= i < j < |ys| ensures ys[i] != ys[j] { assert all[i + 1] != all[j + 1]; }
      forall i | 0 <= i < |ys| ensures ys[i] != x { assert all[0] != all[i + 1]; }
    }
  }

  lemma {:induction false} IdsAppend(groups: seq<Group>, g: Group)
    ensures GroupIds(groups + [g]) == GroupIds(groups) + [g.id]
    decreases |groups|
  {
    if groups != [] {
      IdsAppend(groups[1..], g);
      assert (groups + [g])[1..] == groups[1..] + [g];
    }
  }

  /** A group is taken exactly when its members are streams. */
  lemma UpsertGroupIff(p: Policy, d: Document, group: Group, made: Id)
    requires FoldsDigits(p.fold) && Check(p, Recovered(d))
    ensures Apply(p, d, UpsertGroup(group), made).Success? <==> forall id :: id in group.members ==>
      id in StreamIds(d.streams)
  {
    var b := Recovered(d);
    var r := b.(groups := GroupsExcept(b.groups, group.id) + [group]);
    hide Recovered, GroupsExcept, GroupIds, Distinct;
    DistinctGroups(p, b);
    ExceptDistinct(b.groups, group.id);
    IdsAppend(GroupsExcept(b.groups, group.id), group);
    OneMoreDistinct(GroupIds(GroupsExcept(b.groups, group.id)), group.id);
    forall g { ExceptHas(b.groups, group.id, g); }
    CheckIff(p, b, r);
    CheckIff(p, b, b);
    hide Check;
    RecoveredStreams(d);
  }

  lemma RecoveredStreams(d: Document)
    ensures Recovered(d).streams == d.streams && Recovered(d).subsystems == d.subsystems
    ensures Recovered(d).units == d.units && Recovered(d).objects == d.objects && Recovered(d).settings == d.settings
    ensures Recovered(d).nextNumber == d.nextNumber
    ensures ObjectIds(Recovered(d)) == ObjectIds(d)
  {
  }

  lemma DistinctGroups(p: Policy, d: Document)
    requires Check(p, d)
    ensures Distinct(GroupIds(d.groups)) && Distinct(GroupIds(d.subsystems))
  {
  }

  lemma OneMoreDistinct(ids: seq<Id>, id: Id)
    requires Distinct(ids) && id !in ids
    ensures Distinct(ids + [id])
  {
  }

  /** A subsystem is taken exactly when its members are objects. */
  lemma UpsertSubsystemIff(p: Policy, d: Document, subsystem: Group, made: Id)
    requires FoldsDigits(p.fold) && Check(p, Recovered(d))
    ensures Apply(p, d, UpsertSubsystem(subsystem), made).Success? <==>
      forall id :: id in subsystem.members ==> id in ObjectIds(d)
  {
    var b := Recovered(d);
    var r := b.(subsystems := GroupsExcept(b.subsystems, subsystem.id) + [subsystem]);
    hide Recovered, GroupsExcept, GroupIds, Distinct;
    DistinctGroups(p, b);
    ExceptDistinct(b.subsystems, subsystem.id);
    IdsAppend(GroupsExcept(b.subsystems, subsystem.id), subsystem);
    OneMoreDistinct(GroupIds(GroupsExcept(b.subsystems, subsystem.id)), subsystem.id);
    forall g { ExceptHas(b.subsystems, subsystem.id, g); }
    CheckIff(p, b, r);
    CheckIff(p, b, b);
    hide Check;
    RecoveredStreams(d);
    assert ObjectIds(r) == ObjectIds(b);
  }

  /** Settings are always taken, an active group exactly when it is one, and a group or subsystem is
      removed exactly when it is there. */
  lemma PresentationIff(p: Policy, d: Document, e: Edit, made: Id)
    requires FoldsDigits(p.fold) && Check(p, Recovered(d))
    ensures e.Restyle? ==> Apply(p, d, e, made).Success?
    ensures e.Activate? ==> (Apply(p, d, e, made).Success? <==>
      (e.active.Some? ==> e.active.value in GroupIds(Recovered(d).groups)))
    ensures e.RemoveGroup? ==> (Apply(p, d, e, made).Success? <==> e.groupId in GroupIds(Recovered(d).groups))
    ensures e.RemoveSubsystem? ==> (Apply(p, d, e, made).Success? <==> e.subsystemId in GroupIds(d.subsystems))
  {
    var b := Recovered(d);
    RecoveredStreams(d);
    DistinctGroups(p, b);
    CheckIff(p, b, b);
    hide Recovered, GroupsExcept, GroupIds, Distinct, Check;
    match e
    case Restyle(settings) => CheckIff(p, b, b.(settings := settings));
    case Activate(active) => CheckIff(p, b, b.(activeGroup := active));
    case RemoveGroup(id) =>
      ExceptDistinct(b.groups, id);
      forall g { ExceptHas(b.groups, id, g); }
      CheckIff(p, b, b.(groups := GroupsExcept(b.groups, id), activeGroup := if b.activeGroup == Some(id) then None
        else b.activeGroup));
    case RemoveSubsystem(id) =>
      ExceptDistinct(b.subsystems, id);
      forall g { ExceptHas(b.subsystems, id, g); }
      CheckIff(p, b, b.(subsystems := GroupsExcept(b.subsystems, id)));
    case _ =>
  }
}
