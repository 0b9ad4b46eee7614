/** When a removal is accepted. */
module PfdRemoval {
  import opened Wrappers
  import opened Tags
  import opened Pfd
  import opened PfdObjects
  import opened PfdEffects
  import opened PfdAcceptance

  // ---- What is left of the identities ---------------------------------------------------------

  lemma {:induction false} UnitIdsLeft(units: seq<Equipment>, ids: set<Id>)
    ensures UnitIds(UnitsWithout(units, ids)) == MembersWithout(UnitIds(units), ids)
    decreases |units|
  {
    if units != [] {
      UnitIdsLeft(units[1..], ids);
      assert UnitIds(units) == [units[0].id] + UnitIds(units[1..]);
    }
  }

  lemma {:induction false} StreamIdsLeft(streams: seq<Stream>, ids: set<Id>)
    ensures StreamIds(StreamsWithout(streams, ids)) == MembersWithout(StreamIds(streams), ids)
    decreases |streams|
  {
    if streams != [] {
      StreamIdsLeft(streams[1..], ids);
      assert StreamIds(streams) == [streams[0].id] + StreamIds(streams[1..]);
    }
  }

  lemma {:induction false} ShownIdsLeft(objects: seq<Shown>, ids: set<Id>)
    ensures ShownIds(ShownWithout(objects, ids)) == MembersWithout(ShownIds(objects), ids)
    decreases |objects|
  {
    if objects != [] {
      ShownIdsLeft(objects[1..], ids);
      assert ShownIds(objects) == [objects[0].id] + ShownIds(objects[1..]);
    }
  }

  lemma {:induction false} LeftOfBoth(xs: seq<Id>, ys: seq<Id>, ids: set<Id>)
    ensures MembersWithout(xs + ys, ids) == MembersWithout(xs, ids) + MembersWithout(ys, ids)
    decreases |xs|
  {
    if xs == [] {
      assert xs + ys == ys;
    } else {
      LeftOfBoth(xs[1..], ys, ids);
      assert (xs + ys)[1..] == xs[1..] + ys;
    }
  }

  lemma {:induction false} LeftDistinct(xs: seq<Id>, ids: set<Id>)
    requires Distinct(xs)
    ensures Distinct(MembersWithout(xs, ids)) && Elements(MembersWithout(xs, ids)) == Elements(xs) - ids
    decreases |xs|
  {
    if xs != [] {
      var left := MembersWithout(xs[1..], ids);
      assert xs == [xs[0]] + xs[1..];
      HeadDistinct(xs[0], xs[1..]);
      LeftDistinct(xs[1..], ids);
      MembersLeft(xs[1..], ids, xs[0]);
      HeadDistinct(xs[0], left);
      assert Elements(xs) == {xs[0]} + Elements(xs[1..]);
      assert Elements([xs[0]] + left) == {xs[0]} + Elements(left);
    }
  }

  /** What a removal leaves of a document. */
  function Left(d: Document, gone: set<Id>): Document {
    d.(units := UnitsWithout(d.units, gone), streams := StreamsWithout(d.streams, gone),
       objects := ShownWithout(d.objects, gone), groups := GroupsWithout(d.groups, gone),
       subsystems := GroupsWithout(d.subsystems, gone))
  }

  lemma IdsLeft(d: Document, gone: set<Id>)
    ensures ObjectIds(Left(d, gone)) == MembersWithout(ObjectIds(d), gone)
    ensures StreamIds(Left(d, gone).streams) == MembersWithout(StreamIds(d.streams), gone)
    ensures ShownIds(Left(d, gone).objects) == MembersWithout(ShownIds(d.objects), gone)
  {
    UnitIdsLeft(d.units, gone);
    StreamIdsLeft(d.streams, gone);
    ShownIdsLeft(d.objects, gone);
    LeftOfBoth(UnitIds(d.units), StreamIds(d.streams), gone);
    hide UnitIds, StreamIds, ShownIds, MembersWithout, UnitsWithout, StreamsWithout, ShownWithout;
  }

  lemma SameLength(xs: seq<Id>, ys: seq<Id>)
    requires Distinct(xs) && Distinct(ys) && Elements(xs) == Elements(ys)
    ensures |xs| == |ys|
  {
    ElementsAtMost(xs);
    ElementsAtMost(ys);
  }

  lemma LeftIsShownOnce(d: Document, gone: set<Id>)
    requires ShownOnce(d)
    ensures ShownOnce(Left(d, gone))
  {
    var ids, shown := ObjectIds(d), ShownIds(d.objects);
    IdsLeft(d, gone);
    SameElements(ids, shown);
    AllOnce(ids, shown);
    LeftDistinct(ids, gone);
    LeftDistinct(shown, gone);
    SameLength(MembersWithout(ids, gone), MembersWithout(shown, gone));
    MembersLeft(ids, gone, "");
    hide MembersWithout, ObjectIds, ShownIds, Elements, Left;
  }

  // ---- Tags and groups ------------------------------------------------------------------------

  /** An object that is left was there, under its tag. */
  lemma {:induction false} WasThere(objects: seq<Shown>, ids: set<Id>, n: Shown) returns (o: Shown)
    requires n in ShownWithout(objects, ids)
    ensures o in objects && o.id == n.id && o.tag == n.tag && n.id !in ids
    decreases |objects|
  {
    o := objects[0];
    if n in ShownWithout(objects[1..], ids) { o := WasThere(objects[1..], ids, n); }
  }

  lemma LeftTagsGood(p: Policy, d: Document, gone: set<Id>)
    requires Check(p, d)
    ensures TagsGood(p, Left(d, gone))
  {
    hide Check, GoodTag, ShownWithout;
    var r := Left(d, gone);
    forall i | 0 <= i < |r.objects| ensures GoodTag(p, r.objects[i].tag) {
      var o := WasThere(d.objects, gone, r.objects[i]);
      CheckedTags(p, d, o);
    }
  }

  lemma LeftTagsUnique(p: Policy, d: Document, gone: set<Id>)
    requires Check(p, d) && ShownOnce(Left(d, gone))
    ensures TagsUnique(p, Left(d, gone))
  {
    hide Check, ShownWithout, Folded, StreamIds, ObjectIds;
    var r := Left(d, gone);
    IdsLeft(d, gone);
    SameElements(ObjectIds(r), ShownIds(r.objects));
    AllOnce(ObjectIds(r), ShownIds(r.objects));
    forall i, j | 0 <= i < j < |r.objects| && r.objects[i].id in StreamIds(r.streams)
                  && r.objects[j].id in StreamIds(r.streams)
      ensures Folded(p.fold, r.objects[i].tag) != Folded(p.fold, r.objects[j].tag)
    {
      var a := WasThere(d.objects, gone, r.objects[i]);
      var b := WasThere(d.objects, gone, r.objects[j]);
      assert ShownIds(r.objects)[i] == a.id && ShownIds(r.objects)[j] == b.id;
      MembersLeft(StreamIds(d.streams), gone, a.id);
      MembersLeft(StreamIds(d.streams), gone, b.id);
      CheckedTagsDiffer(p, d, a, b);
    }
  }

  lemma {:induction false} GroupIdsLeft(groups: seq<Group>, ids: set<Id>)
    ensures GroupIds(GroupsWithout(groups, ids)) == GroupIds(groups)
    decreases |groups|
  {
    if groups != [] { GroupIdsLeft(groups[1..], ids); }
  }

  lemma MembersStay(groups: seq<Group>, ids: seq<Id>, gone: set<Id>)
    requires forall g :: g in groups ==> forall id :: id in g.members ==> id in ids
    ensures forall g :: g in GroupsWithout(groups, gone) ==>
      forall id :: id in g.members ==> id in MembersWithout(ids, gone)
  {
    GroupsLeft(groups, gone);
    hide GroupsWithout, MembersWithout;
    forall g, id | g in GroupsWithout(groups, gone) && id in g.members ensures id in MembersWithout(ids, gone) {
      var i :| 0 <= i < |groups| && GroupsWithout(groups, gone)[i] == g;
      MembersLeft(groups[i].members, gone, id);
      MembersLeft(ids, gone, id);
      assert groups[i] in groups;
    }
  }

  lemma LeftGroupsFine(d: Document, gone: set<Id>)
    requires GroupsFine(d)
    ensures GroupsFine(Left(d, gone))
  {
    IdsLeft(d, gone);
    GroupIdsLeft(d.groups, gone);
    GroupIdsLeft(d.subsystems, gone);
    MembersStay(d.groups, StreamIds(d.streams), gone);
    MembersStay(d.subsystems, ObjectIds(d), gone);
    hide ObjectIds, StreamIds, MembersWithout, GroupsWithout, GroupIds, StreamsWithout, UnitsWithout, ShownWithout;
  }

  /** Whatever is taken out of a checked document, in this way, what is left passes the check. */
  lemma LeftIsChecked(p: Policy, d: Document, gone: set<Id>)
    requires Check(p, d)
    ensures Check(p, Left(d, gone))
  {
    hide *;
    CheckParts(p, d);
    CheckParts(p, Left(d, gone));
    LeftIsShownOnce(d, gone);
    LeftTagsGood(p, d, gone);
    LeftTagsUnique(p, d, gone);
    LeftGroupsFine(d, gone);
  }

  lemma RemovedIs(p: Policy, d: Document, ids: seq<Id>, confirmed: bool)
    ensures Removed(p, d, ids, confirmed).Success? <==>
      && (forall id :: id in ids ==> id in ShownIds(d.objects))
      && (Attached(d.streams, set id | id in ids) != {} ==> confirmed) && Check(p, Left(d, Gone(d, ids)))
  {
    hide Check, Attached, UnitsWithout, StreamsWithout, ShownWithout, GroupsWithout, ShownIds;
  }

  /** A removal is made exactly of objects that are all shown, and with streams attached to them only
      when that is confirmed. */
  lemma RemoveIff(p: Policy, d: Document, ids: seq<Id>, confirmed: bool, made: Id)
    requires FoldsDigits(p.fold) && Check(p, Recovered(d))
    ensures Apply(p, d, Remove(ids, confirmed), made).Success? <==>
      && (forall id :: id in ids ==> id in ShownIds(d.objects))
      && ((exists s :: s in d.streams && (s.source in ids || s.target in ids)) ==> confirmed)
  {
    var b := Recovered(d);
    RecoveredStreams(d);
    AttachedIff(d.streams, ids);
    LeftIsChecked(p, b, Gone(b, ids));
    RemovedIs(p, b, ids, confirmed);
    hide Check, Recovered, Attached, Left, Removed, ShownIds;
  }
}
