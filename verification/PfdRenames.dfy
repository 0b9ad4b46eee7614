/** When a rename is accepted, and that it moves nothing. */
module PfdRenames {
  import opened Wrappers
  import opened Tags
  import opened Pfd
  import opened PfdObjects
  import opened PfdEffects
  import opened PfdAcceptance

  /** Another stream that has the tag, ignoring case. */
  predicate Rival(p: Policy, d: Document, o: Shown, id: Id, tag: string) {
    o.id != id && o.id in StreamIds(d.streams) && Folded(p.fold, o.tag) == Folded(p.fold, tag)
  }

  lemma {:induction false} ConflictIff(p: Policy, d: Document, objects: seq<Shown>, id: Id, tag: string)
    ensures Conflict(p, d, objects, id, tag).Some? <==> exists o :: o in objects && Rival(p, d, o, id, tag)
    ensures Conflict(p, d, objects, id, tag).Some? ==> Rival(p, d, Conflict(p, d, objects, id, tag).value, id, tag)
    decreases |objects|
  {
    if objects != [] { ConflictIff(p, d, objects[1..], id, tag); }
  }

  /** A stream to be renamed to a tag that another one has. */
  predicate Contested(p: Policy, d: Document, id: Id, tag: string) {
    id in StreamIds(d.streams) && exists o :: o in d.objects && Rival(p, d, o, id, tag)
  }

  lemma ContestedIff(p: Policy, d: Document, id: Id, tag: string)
    ensures Contested(p, d, id, tag) <==> Clash(p, d, id, tag).Some?
    ensures Clash(p, d, id, tag).Some? ==> Rival(p, d, Clash(p, d, id, tag).value, id, tag)
  {
    ConflictIff(p, d, d.objects, id, tag);
  }

  /** The identities are shown once each, and no two streams have one tag, ignoring case. */
  predicate Apart(p: Policy, d: Document) {
    && (forall i, j :: 0 <= i < j < |d.objects| ==> d.objects[i].id != d.objects[j].id)
    && TagsUnique(p, d)
  }

  /** What is known of a rename that is not refused as contested. */
  ghost predicate Renaming(p: Policy, d: Document, o: Shown, clash: Option<Shown>, tag: string, swap: bool,
      named: string) {
    && Apart(p, d) && o in d.objects
    && (clash.Some? ==> clash.value in d.objects && o.id in StreamIds(d.streams) && Rival(p, d, clash.value, o.id, tag))
    && (clash.None? && o.id in StreamIds(d.streams) ==> forall x :: x in d.objects ==> !Rival(p, d, x, o.id, tag))
    && (clash.None? || swap ==> named == tag)
    && (clash.Some? && !swap ==> Folded(p.fold, named) !in FoldedTags(p.fold, d.objects))
  }

  predicate BothStreams(d: Document, a: Shown, b: Shown) {
    a in d.objects && b in d.objects && a.id in StreamIds(d.streams) && b.id in StreamIds(d.streams)
  }

  lemma ApartTags(p: Policy, d: Document, a: Shown, b: Shown)
    requires Apart(p, d) && a in d.objects && b in d.objects
    ensures a.id == b.id ==> a == b
    ensures BothStreams(d, a, b) && a != b ==> Folded(p.fold, a.tag) != Folded(p.fold, b.tag)
  {
    hide Folded;
    var i :| 0 <= i < |d.objects| && d.objects[i] == a;
    var j :| 0 <= j < |d.objects| && d.objects[j] == b;
  }

  lemma UsedTag(p: Policy, d: Document, a: Shown)
    requires a in d.objects
    ensures Folded(p.fold, a.tag) in FoldedTags(p.fold, d.objects)
  {
  }

  /** Two streams keep different tags through a rename of no family. */
  lemma StayApart(p: Policy, d: Document, o: Shown, clash: Option<Shown>, tag: string, swap: bool, named: string,
      a: Shown, b: Shown)
    requires Renaming(p, d, o, clash, tag, swap, named) && BothStreams(d, a, b) && a != b
    ensures Folded(p.fold, NextTagOf(a, o, clash, swap, false, named))
         != Folded(p.fold, NextTagOf(b, o, clash, swap, false, named))
  {
    ApartTags(p, d, a, b);
    ApartTags(p, d, a, o);
    ApartTags(p, d, b, o);
    UsedTag(p, d, a);
    UsedTag(p, d, b);
    if clash.Some? {
      ApartTags(p, d, a, clash.value);
      ApartTags(p, d, b, clash.value);
      ApartTags(p, d, o, clash.value);
    }
    hide Folded, FoldedTags, Apart, StreamIds;
  }

  // ---- Acceptance -----------------------------------------------------------------------------

  lemma CheckedIsApart(p: Policy, d: Document)
    requires Check(p, d)
    ensures Apart(p, d) && TagsGood(p, d)
  {
    DistinctObjects(p, d);
    CheckParts(p, d);
  }

  /** The rename is past its refusals. */
  predicate Passed(p: Policy, d: Document, id: Id, tag: string, swap: bool) {
    FindShown(d.objects, id).Some? && (Clash(p, d, id, tag).Some? ==> swap || d.settings.nextAvailable)
  }

  function Table(p: Policy, d: Document, id: Id, tag: string, swap: bool, family: bool): seq<Shown>
    requires FoldsDigits(p.fold) && FindShown(d.objects, id).Some?
  {
    var placed := Placed(d, FindShown(d.objects, id).value, Clash(p, d, id, tag), swap, NewTag(p, d, id, tag, swap));
    if family then FamilyRenamed(placed, id, NewTag(p, d, id, tag, swap)) else placed
  }

  /** The document of a rename, before its check. */
  function Retagged(p: Policy, d: Document, id: Id, tag: string, swap: bool, family: bool): Document
    requires FoldsDigits(p.fold) && FindShown(d.objects, id).Some?
  {
    d.(objects := Table(p, d, id, tag, swap, family),
       nextNumber := if Clash(p, d, id, tag).Some? && !swap then NextStreamNumber(p, d) + 1 else d.nextNumber)
  }

  lemma RenamedIs(p: Policy, d: Document, id: Id, tag: string, swap: bool, family: bool)
    requires FoldsDigits(p.fold)
    ensures var r := Renamed(p, d, id, tag, swap, family);
      && (r.Success? <==> Passed(p, d, id, tag, swap) && Check(p, Retagged(p, d, id, tag, swap, family)))
      && (r.Success? ==> r.value == Retagged(p, d, id, tag, swap, family))
  {
    hide Check, FirstFree, WithShown, FindShown, TagOf, Conflict, FamilyRenamed;
  }

  /** The tag an object gets by a rename. */
  function NamedBy(p: Policy, d: Document, id: Id, tag: string, swap: bool, family: bool, i: nat): string
    requires FoldsDigits(p.fold) && FindShown(d.objects, id).Some? && i < |d.objects|
  {
    NextTagOf(d.objects[i], FindShown(d.objects, id).value, Clash(p, d, id, tag), swap, family,
              NewTag(p, d, id, tag, swap))
  }

  lemma TableAt(p: Policy, d: Document, id: Id, tag: string, swap: bool, family: bool, i: nat)
    requires FoldsDigits(p.fold) && FindShown(d.objects, id).Some? && i < |d.objects|
    ensures var t := Table(p, d, id, tag, swap, family);
      |t| == |d.objects| && t[i].id == d.objects[i].id && t[i].tag == NamedBy(p, d, id, tag, swap, family, i)
  {
    ClashIsOther(p, d, id, tag);
    hide Placed, Clash, NewTag, FindShown, NextTagOf, FamilyRenamed;
    TableTags(d, FindShown(d.objects, id).value, Clash(p, d, id, tag), swap, family, NewTag(p, d, id, tag, swap), i);
  }

  lemma RetaggedIsAlike(p: Policy, d: Document, id: Id, tag: string, swap: bool, family: bool)
    requires FoldsDigits(p.fold) && FindShown(d.objects, id).Some? && d.objects != []
    ensures Alike(d, Retagged(p, d, id, tag, swap, family))
  {
    hide Table, NextTagOf, UnitIds, Clash;
    TableAt(p, d, id, tag, swap, family, 0);
    forall i | 0 <= i < |d.objects| ensures Table(p, d, id, tag, swap, family)[i].id == d.objects[i].id {
      TableAt(p, d, id, tag, swap, family, i);
    }
  }

  lemma IsRenaming(p: Policy, d: Document, id: Id, tag: string, swap: bool)
    requires FoldsDigits(p.fold) && Check(p, d) && FindShown(d.objects, id).Some?
    ensures Renaming(p, d, FindShown(d.objects, id).value, Clash(p, d, id, tag), tag, swap, NewTag(p, d, id, tag, swap))
  {
    CheckedIsApart(p, d);
    ConflictIff(p, d, d.objects, id, tag);
    hide Check, Apart, TagsGood, Folded, FoldedTags, TagOf;
  }

  lemma RetaggedUnique(p: Policy, d: Document, id: Id, tag: string, swap: bool)
    requires FoldsDigits(p.fold) && Check(p, d) && FindShown(d.objects, id).Some?
    ensures TagsUnique(p, Retagged(p, d, id, tag, swap, false))
  {
    IsRenaming(p, d, id, tag, swap);
    CheckedIsApart(p, d);
    var o, clash, named := FindShown(d.objects, id).value, Clash(p, d, id, tag), NewTag(p, d, id, tag, swap);
    hide Check, Table, Renaming, Folded, FindShown, Clash, NewTag, TagsGood, NextTagOf;
    var r := Retagged(p, d, id, tag, swap, false);
    forall i, j | 0 <= i < j < |r.objects| && r.objects[i].id in StreamIds(d.streams)
                  && r.objects[j].id in StreamIds(d.streams)
      ensures Folded(p.fold, r.objects[i].tag) != Folded(p.fold, r.objects[j].tag)
    {
      RetaggedPair(p, d, id, tag, swap, i, j);
    }
  }

  lemma RetaggedPair(p: Policy, d: Document, id: Id, tag: string, swap: bool, i: nat, j: nat)
    requires FoldsDigits(p.fold) && Check(p, d) && FindShown(d.objects, id).Some?
    requires i < j < |Table(p, d, id, tag, swap, false)|
    requires Table(p, d, id, tag, swap, false)[i].id in StreamIds(d.streams)
    requires Table(p, d, id, tag, swap, false)[j].id in StreamIds(d.streams)
    ensures Folded(p.fold, Table(p, d, id, tag, swap, false)[i].tag)
         != Folded(p.fold, Table(p, d, id, tag, swap, false)[j].tag)
  {
    hide *;
    FoundThere(d.objects, id);
    IsRenaming(p, d, id, tag, swap);
    CheckedIsApart(p, d);
    TableAt(p, d, id, tag, swap, false, 0);
    TableAt(p, d, id, tag, swap, false, i);
    TableAt(p, d, id, tag, swap, false, j);
    NamedApart(p, d, id, tag, swap, i, j);
  }

  lemma NamedApart(p: Policy, d: Document, id: Id, tag: string, swap: bool, i: nat, j: nat)
    requires FoldsDigits(p.fold) && FindShown(d.objects, id).Some? && i < j < |d.objects| && Apart(p, d)
    requires Renaming(p, d, FindShown(d.objects, id).value, Clash(p, d, id, tag), tag, swap,
                      NewTag(p, d, id, tag, swap))
    requires d.objects[i].id in StreamIds(d.streams) && d.objects[j].id in StreamIds(d.streams)
    ensures Folded(p.fold, NamedBy(p, d, id, tag, swap, false, i))
         != Folded(p.fold, NamedBy(p, d, id, tag, swap, false, j))
  {
    hide Renaming, Folded, FindShown, Clash, NewTag, NextTagOf, TagsUnique;
    StayApart(p, d, FindShown(d.objects, id).value, Clash(p, d, id, tag), tag, swap, NewTag(p, d, id, tag, swap),
              d.objects[i], d.objects[j]);
  }

  lemma FoundThere(objects: seq<Shown>, id: Id)
    requires FindShown(objects, id).Some?
    ensures objects != []
  {
  }

  /** The tags after a rename are good exactly when the new one is: the others were there. */
  lemma RetaggedGood(p: Policy, d: Document, id: Id, tag: string, swap: bool)
    requires FoldsDigits(p.fold) && Check(p, d) && FindShown(d.objects, id).Some?
    ensures TagsGood(p, Retagged(p, d, id, tag, swap, false)) <==> GoodTag(p, NewTag(p, d, id, tag, swap))
  {
    hide *;
    CheckedIsApart(p, d);
    var k := FoundAt(d.objects, id);
    NamedFirst(p, d, id, tag, swap, k);
    TableAt(p, d, id, tag, swap, false, k);
    forall i | 0 <= i < |d.objects|
      ensures Table(p, d, id, tag, swap, false)[i].tag == NamedBy(p, d, id, tag, swap, false, i)
      ensures GoodTag(p, NewTag(p, d, id, tag, swap)) ==> GoodTag(p, NamedBy(p, d, id, tag, swap, false, i))
    {
      TableAt(p, d, id, tag, swap, false, i);
      NamedGood(p, d, id, tag, swap, i);
    }
    TagsGoodIf(p, d, id, tag, swap, k);
  }

  lemma FoundAt(objects: seq<Shown>, id: Id) returns (k: nat)
    requires FindShown(objects, id).Some?
    ensures k < |objects| && objects[k] == FindShown(objects, id).value
  {
    k :| 0 <= k < |objects| && objects[k] == FindShown(objects, id).value;
  }

  lemma NamedFirst(p: Policy, d: Document, id: Id, tag: string, swap: bool, k: nat)
    requires FoldsDigits(p.fold) && FindShown(d.objects, id).Some? && k < |d.objects|
    requires d.objects[k] == FindShown(d.objects, id).value
    ensures NamedBy(p, d, id, tag, swap, false, k) == NewTag(p, d, id, tag, swap)
  {
    hide FindShown, Clash, NewTag;
  }

  lemma NamedGood(p: Policy, d: Document, id: Id, tag: string, swap: bool, i: nat)
    requires FoldsDigits(p.fold) && FindShown(d.objects, id).Some? && i < |d.objects| && TagsGood(p, d)
    ensures GoodTag(p, NewTag(p, d, id, tag, swap)) ==> GoodTag(p, NamedBy(p, d, id, tag, swap, false, i))
  {
    var k := FoundAt(d.objects, id);
    hide FindShown, Clash, NewTag, GoodTag;
    assert GoodTag(p, d.objects[k].tag) && GoodTag(p, d.objects[i].tag);
  }

  lemma TagsGoodIf(p: Policy, d: Document, id: Id, tag: string, swap: bool, k: nat)
    requires FoldsDigits(p.fold) && FindShown(d.objects, id).Some? && k < |d.objects|
    requires var t := Table(p, d, id, tag, swap, false);
      && |t| == |d.objects| && t[k].tag == NewTag(p, d, id, tag, swap)
      && (GoodTag(p, NewTag(p, d, id, tag, swap)) ==> forall i :: 0 <= i < |t| ==> GoodTag(p, t[i].tag))
    ensures TagsGood(p, Retagged(p, d, id, tag, swap, false)) <==> GoodTag(p, NewTag(p, d, id, tag, swap))
  {
    hide GoodTag, NewTag, Table, FindShown, Clash;
    var r := Retagged(p, d, id, tag, swap, false);
    assert r.objects == Table(p, d, id, tag, swap, false);
    if TagsGood(p, r) { assert GoodTag(p, r.objects[k].tag); }
  }

  /** Good tags for all, and different ones for the streams. */
  predicate TagsFit(p: Policy, d: Document, tags: seq<string>)
    requires |tags| == |d.objects|
  {
    && (forall i :: 0 <= i < |tags| ==> GoodTag(p, tags[i]))
    && forall i, j :: 0 <= i < j < |tags| && d.objects[i].id in StreamIds(d.streams)
                      && d.objects[j].id in StreamIds(d.streams) ==>
         Folded(p.fold, tags[i]) != Folded(p.fold, tags[j])
  }

  lemma TagsFitIff(p: Policy, d: Document, r: Document, tags: seq<string>)
    requires Alike(d, r) && |tags| == |d.objects| && forall i :: 0 <= i < |tags| ==> r.objects[i].tag == tags[i]
    ensures TagsGood(p, r) && TagsUnique(p, r) <==> TagsFit(p, d, tags)
  {
    hide GoodTag, Folded, UnitIds, StreamIds;
    if TagsGood(p, r) && TagsUnique(p, r) {
      forall i | 0 <= i < |tags| ensures GoodTag(p, tags[i]) { assert GoodTag(p, r.objects[i].tag); }
      forall i, j | 0 <= i < j < |tags| && d.objects[i].id in StreamIds(d.streams)
                    && d.objects[j].id in StreamIds(d.streams)
        ensures Folded(p.fold, tags[i]) != Folded(p.fold, tags[j])
      {
        assert r.objects[i].id == d.objects[i].id && r.objects[j].id == d.objects[j].id;
      }
    }
    if TagsFit(p, d, tags) {
      forall i | 0 <= i < |tags| ensures GoodTag(p, r.objects[i].tag) { assert GoodTag(p, tags[i]); }
    }
  }

  function NewTags(p: Policy, d: Document, id: Id, tag: string, swap: bool, family: bool): seq<string>
    requires FoldsDigits(p.fold) && FindShown(d.objects, id).Some?
  {
    seq(|d.objects|, i requires 0 <= i < |d.objects| => NamedBy(p, d, id, tag, swap, family, i))
  }

  lemma NewTagsAt(p: Policy, d: Document, id: Id, tag: string, swap: bool, family: bool)
    requires FoldsDigits(p.fold) && FindShown(d.objects, id).Some?
    ensures var r, tags := Retagged(p, d, id, tag, swap, family), NewTags(p, d, id, tag, swap, family);
      |r.objects| == |tags| == |d.objects| && forall i :: 0 <= i < |tags| ==> r.objects[i].tag == tags[i]
  {
    hide Table, NamedBy;
    var r, tags := Retagged(p, d, id, tag, swap, family), NewTags(p, d, id, tag, swap, family);
    FoundThere(d.objects, id);
    TableAt(p, d, id, tag, swap, family, 0);
    forall i | 0 <= i < |tags| ensures r.objects[i].tag == tags[i] { TableAt(p, d, id, tag, swap, family, i); }
  }

  lemma PassedIsShown(p: Policy, d: Document, id: Id, tag: string, swap: bool)
    ensures Passed(p, d, id, tag, swap) <==>
      FindShown(d.objects, id).Some? && (Clash(p, d, id, tag).Some? ==> swap || d.settings.nextAvailable)
  {
  }

  lemma RenamedIffFit(p: Policy, d: Document, id: Id, tag: string, swap: bool, family: bool)
    requires FoldsDigits(p.fold) && Check(p, d)
    ensures Renamed(p, d, id, tag, swap, family).Success? <==>
      Passed(p, d, id, tag, swap) && TagsFit(p, d, NewTags(p, d, id, tag, swap, family))
  {
    hide *;
    RenamedIs(p, d, id, tag, swap, family);
    PassedIsShown(p, d, id, tag, swap);
    if Passed(p, d, id, tag, swap) {
      var r := Retagged(p, d, id, tag, swap, family);
      FoundThere(d.objects, id);
      RetaggedIsAlike(p, d, id, tag, swap, family);
      AlikeIff(p, d, r);
      NewTagsAt(p, d, id, tag, swap, family);
      TagsFitIff(p, d, r, NewTags(p, d, id, tag, swap, family));
    }
  }

  /** A rename, of a family or not, is taken exactly of an object that is shown, if a contest with
      another stream may be resolved and all tags that come of it are good, and different for
      streams. */
  lemma RenameIffFit(p: Policy, d: Document, id: Id, tag: string, swap: bool, family: bool, made: Id)
    requires FoldsDigits(p.fold) && Check(p, Recovered(d))
    ensures Apply(p, d, Rename(id, tag, swap, family), made).Success? <==>
      && FindShown(d.objects, id).Some?
      && (Contested(p, d, id, tag) ==> swap || d.settings.nextAvailable)
      && TagsFit(p, Recovered(d), NewTags(p, Recovered(d), id, tag, swap, family))
  {
    var b := Recovered(d);
    RecoveredStreams(d);
    ContestedIff(p, b, id, tag);
    SameContest(p, d, b, id, tag);
    hide Check, Recovered, FindShown, NewTags, TagsFit, Clash, Renamed, Contested;
    RenamedIffFit(p, b, id, tag, swap, family);
  }

  lemma RenamedIff(p: Policy, d: Document, id: Id, tag: string, swap: bool)
    requires FoldsDigits(p.fold) && Check(p, d)
    ensures Renamed(p, d, id, tag, swap, false).Success? <==>
      Passed(p, d, id, tag, swap) && GoodTag(p, NewTag(p, d, id, tag, swap))
  {
    hide *;
    RenamedIs(p, d, id, tag, swap, false);
    PassedIsShown(p, d, id, tag, swap);
    if Passed(p, d, id, tag, swap) {
      FoundThere(d.objects, id);
      RetaggedIsAlike(p, d, id, tag, swap, false);
      AlikeIff(p, d, Retagged(p, d, id, tag, swap, false));
      RetaggedUnique(p, d, id, tag, swap);
      RetaggedGood(p, d, id, tag, swap);
    }
  }

  /** A rename of no family is taken exactly of an object that is shown, if the new tag is good and,
      where another stream has it, a swap or the next free tag may resolve that. */
  lemma RenameIff(p: Policy, d: Document, id: Id, tag: string, swap: bool, made: Id)
    requires FoldsDigits(p.fold) && Check(p, Recovered(d))
    ensures Apply(p, d, Rename(id, tag, swap, false), made).Success? <==>
      && id in ShownIds(d.objects)
      && (Contested(p, d, id, tag) ==> swap || d.settings.nextAvailable)
      && GoodTag(p, NewTag(p, Recovered(d), id, tag, swap))
  {
    var b := Recovered(d);
    RecoveredStreams(d);
    FoundIffShown(d.objects, id);
    ContestedIff(p, b, id, tag);
    SameContest(p, d, b, id, tag);
    hide Check, Recovered, FindShown, NewTag, GoodTag, Clash, Renamed, Contested;
    RenamedIff(p, b, id, tag, swap);
  }

  lemma SameContest(p: Policy, d: Document, b: Document, id: Id, tag: string)
    requires b.streams == d.streams && b.objects == d.objects
    ensures Contested(p, b, id, tag) <==> Contested(p, d, id, tag)
  {
    hide Folded, StreamIds;
    assert forall o :: Rival(p, b, o, id, tag) <==> Rival(p, d, o, id, tag);
  }

  /** The next number is spent when a free tag was taken, and only then. */
  lemma RenameNumbers(p: Policy, d: Document, id: Id, tag: string, swap: bool, family: bool)
    requires FoldsDigits(p.fold) && Renamed(p, d, id, tag, swap, family).Success?
    ensures var r := Renamed(p, d, id, tag, swap, family).value;
      if Contested(p, d, id, tag) && !swap then
        var from := if d.nextNumber > d.settings.start then d.nextNumber else d.settings.start;
        && r.nextNumber > 0
        && IsFirstFree(p.fold, d.settings.prefix, d.settings.padding, FoldedTags(p.fold, d.objects), from,
                       r.nextNumber - 1)
        && NewTag(p, d, id, tag, swap) == TagOf(d.settings.prefix, d.settings.padding, r.nextNumber - 1)
      else r.nextNumber == d.nextNumber && NewTag(p, d, id, tag, swap) == tag
  {
    ContestedIff(p, d, id, tag);
    hide Check, FirstFree, WithShown, FindShown, TagOf, Conflict, FamilyRenamed, IsFirstFree, FoldedTags, Rival;
  }

  lemma PlacedLayout(p: Policy, d: Document, o: Shown, clash: Option<Shown>, swap: bool, named: string, i: nat)
    requires Apart(p, d) && o in d.objects && i < |d.objects|
    requires clash.Some? ==> clash.value in d.objects && clash.value.id != o.id
    ensures var placed := Placed(d, o, clash, swap, named);
      |placed| == |d.objects| && placed[i].layout == d.objects[i].layout
  {
    ApartTags(p, d, d.objects[i], o);
    if clash.Some? { ApartTags(p, d, d.objects[i], clash.value); }
    hide Apart, Folded, Placed;
    PlacedAt(d, o, clash, swap, named, i);
  }

  lemma FoundClash(p: Policy, d: Document, id: Id, tag: string)
    requires FindShown(d.objects, id).Some?
    ensures FindShown(d.objects, id).value in d.objects && FindShown(d.objects, id).value.id == id
    ensures Clash(p, d, id, tag).Some? ==>
      Clash(p, d, id, tag).value in d.objects && Clash(p, d, id, tag).value.id != id
  {
  }

  /** A rename moves nothing: every object keeps its layout. */
  lemma RenameMovesNothing(p: Policy, d: Document, id: Id, tag: string, swap: bool, family: bool)
    requires FoldsDigits(p.fold) && Check(p, d) && Renamed(p, d, id, tag, swap, family).Success?
    ensures var r := Renamed(p, d, id, tag, swap, family).value;
      |r.objects| == |d.objects| && forall i :: 0 <= i < |d.objects| ==> r.objects[i].layout == d.objects[i].layout
  {
    hide *;
    RenamedTable(p, d, id, tag, swap, family);
    FoundClash(p, d, id, tag);
    CheckedIsApart(p, d);
    var o, clash, named := FindShown(d.objects, id).value, Clash(p, d, id, tag), NewTag(p, d, id, tag, swap);
    FamilyRenamedAt(Placed(d, o, clash, swap, named), id, named);
    PlacedLayout(p, d, o, clash, swap, named, 0);
    forall i | 0 <= i < |d.objects|
      ensures Placed(d, o, clash, swap, named)[i].layout == d.objects[i].layout
    {
      PlacedLayout(p, d, o, clash, swap, named, i);
    }
  }
}
