/** When an elementary edit is accepted: exactly when nothing stands in its way. */
module PfdAcceptance {
  import opened Wrappers
  import opened Tags
  import opened Pfd
  import opened PfdWiring
  import opened PfdObjects
  import opened PfdEffects

  // ---- The parts of the check -----------------------------------------------------------------

  /** Every unit and stream has one identity and is shown once. */
  predicate ShownOnce(d: Document) {
    var ids := ObjectIds(d);
    Distinct(ids) && "" !in ids && |d.objects| == |ids| && Elements(ids) == Elements(ShownIds(d.objects))
  }

  predicate TagsGood(p: Policy, d: Document) {
    forall i :: 0 <= i < |d.objects| ==> GoodTag(p, d.objects[i].tag)
  }

  predicate GroupsFine(d: Document) {
    && Distinct(GroupIds(d.groups)) && (d.activeGroup.Some? ==> d.activeGroup.value in GroupIds(d.groups))
    && (forall g :: g in d.groups ==> forall id :: id in g.members ==> id in StreamIds(d.streams))
    && Distinct(GroupIds(d.subsystems))
    && (forall g :: g in d.subsystems ==> forall id :: id in g.members ==> id in ObjectIds(d))
  }

  lemma CheckParts(p: Policy, d: Document)
    ensures Check(p, d) <==> ShownOnce(d) && TagsGood(p, d) && TagsUnique(p, d) && GroupsFine(d)
  {
    hide TagsUnique, ValidTag;
    SameElements(ObjectIds(d), ShownIds(d.objects));
    TagsGoodIff(p, d);
    hide Elements, TagsGood;
  }

  lemma TagsGoodIff(p: Policy, d: Document)
    ensures TagsGood(p, d) <==> forall o :: o in d.objects ==> ValidTag(p, o.tag)
  {
    forall o: Shown ensures GoodTag(p, o.tag) <==> ValidTag(p, o.tag) { GoodIff(p, o.tag); }
    hide GoodTag, ValidTag;
  }

  lemma GoodIff(p: Policy, tag: string)
    ensures GoodTag(p, tag) <==> ValidTag(p, tag)
  {
    if GoodTag(p, tag) {
      forall i | 0 <= i < |tag| ensures tag[i] as int >= 32 { assert tag[i] in tag; }
    }
  }

  lemma SameElements(xs: seq<Id>, ys: seq<Id>)
    ensures Elements(xs) == Elements(ys) <==> (forall x :: x in xs ==> x in ys) && (forall y :: y in ys ==> y in xs)
  {
    if Elements(xs) == Elements(ys) {
      forall x ensures x in xs <==> x in ys { InElements(xs, ys, x); }
    }
  }

  // ---- More objects ---------------------------------------------------------------------------

  /** `b` has one more object than `a`, of the given identity. */
  predicate OneMore(a: Document, b: Document, o: Shown) {
    && b.objects == a.objects + [o]
    && |ObjectIds(b)| == |ObjectIds(a)| + 1 && Elements(ObjectIds(b)) == Elements(ObjectIds(a)) + {o.id}
    && (forall id :: id in StreamIds(a.streams) ==> id in StreamIds(b.streams))
    && (forall id :: id in StreamIds(b.streams) ==> id in StreamIds(a.streams) || id == o.id)
    && b.groups == a.groups && b.subsystems == a.subsystems && b.activeGroup == a.activeGroup
  }

  lemma {:induction false} ShownAppend(objects: seq<Shown>, o: Shown)
    ensures ShownIds(objects + [o]) == ShownIds(objects) + [o.id]
    decreases |objects|
  {
    if objects != [] {
      ShownAppend(objects[1..], o);
      assert (objects + [o])[1..] == objects[1..] + [o];
    }
  }

  lemma ElementsAppend(xs: seq<Id>, x: Id)
    ensures Elements(xs + [x]) == Elements(xs) + {x}
  {
  }

  /** The new object takes no tag of a stream, if it is one itself. */
  predicate TakesNoTag(p: Policy, a: Document, b: Document, o: Shown) {
    o.id in StreamIds(b.streams) ==>
      forall i :: 0 <= i < |a.objects| ==> Folded(p.fold, a.objects[i].tag) != Folded(p.fold, o.tag)
  }

  lemma TagsGrow(p: Policy, a: Document, b: Document, o: Shown)
    requires TagsUnique(p, a) && OneMore(a, b, o) && TakesNoTag(p, a, b, o) && o.id !in ShownIds(a.objects)
    ensures TagsUnique(p, b)
  {
    hide Folded;
    forall i, j | 0 <= i < j < |b.objects| && b.objects[i].id in StreamIds(b.streams)
                  && b.objects[j].id in StreamIds(b.streams)
      ensures Folded(p.fold, b.objects[i].tag) != Folded(p.fold, b.objects[j].tag)
    {
      assert b.objects[i] == a.objects[i] && ShownIds(a.objects)[i] == a.objects[i].id;
      if j < |a.objects| {
        assert b.objects[j] == a.objects[j] && ShownIds(a.objects)[j] == a.objects[j].id;
      }
    }
  }

  lemma NewIsDistinct(xs: seq<Id>, ys: seq<Id>, x: Id)
    requires Distinct(xs) && |ys| == |xs| + 1 && Elements(ys) == Elements(xs) + {x}
    ensures Distinct(ys) <==> x !in xs
    ensures "" !in ys <==> "" !in xs && x != ""
  {
    ElementsAtMost(xs);
    ElementsAtMost(ys);
    assert x in xs <==> x in Elements(xs);
    assert "" in ys <==> "" in Elements(ys);
    assert "" in xs <==> "" in Elements(xs);
    if x in Elements(xs) { assert Elements(ys) == Elements(xs); }
  }

  /** One more object is taken exactly when its identity is new and its tag good. */
  lemma GrowsIff(p: Policy, a: Document, b: Document, o: Shown)
    requires Check(p, a) && OneMore(a, b, o) && TakesNoTag(p, a, b, o)
    ensures Check(p, b) <==> o.id !in ObjectIds(a) && o.id != "" && GoodTag(p, o.tag)
  {
    CheckParts(p, a);
    CheckParts(p, b);
    hide Check, GoodTag, TagsUnique, TakesNoTag;
    NewIsDistinct(ObjectIds(a), ObjectIds(b), o.id);
    ShownAppend(a.objects, o);
    ElementsAppend(ShownIds(a.objects), o.id);
    InElements(ObjectIds(a), ShownIds(a.objects), o.id);
    if o.id !in ObjectIds(a) { TagsGrow(p, a, b, o); }
    GroupsStay(a, b, o);
    hide ObjectIds, ShownIds, Elements, OneMore, GroupsFine, Distinct;
    OneMoreObjects(a, b, o);
    assert b.objects[|a.objects|] == o;
    assert forall i :: 0 <= i < |a.objects| ==> b.objects[i] == a.objects[i];
  }

  lemma OneMoreObjects(a: Document, b: Document, o: Shown)
    requires OneMore(a, b, o)
    ensures b.objects == a.objects + [o] && |ObjectIds(b)| == |ObjectIds(a)| + 1
  {
  }

  lemma InElements(xs: seq<Id>, ys: seq<Id>, x: Id)
    requires Elements(xs) == Elements(ys)
    ensures x in xs <==> x in ys
  {
    assert x in xs <==> x in Elements(xs);
    assert x in ys <==> x in Elements(ys);
  }

  lemma GroupsStay(a: Document, b: Document, o: Shown)
    requires OneMore(a, b, o) && GroupsFine(a)
    ensures GroupsFine(b)
  {
    forall id | id in ObjectIds(a) ensures id in ObjectIds(b) {
      assert id in Elements(ObjectIds(a));
      assert id in Elements(ObjectIds(b));
    }
    hide ObjectIds, Elements;
  }

  // ---- Additions and connections --------------------------------------------------------------

  lemma {:induction false} UnitIdsAppend(units: seq<Equipment>, u: Equipment)
    ensures UnitIds(units + [u]) == UnitIds(units) + [u.id]
    decreases |units|
  {
    if units != [] {
      UnitIdsAppend(units[1..], u);
      assert (units + [u])[1..] == units[1..] + [u];
    }
  }

  lemma {:induction false} StreamIdsAppend(streams: seq<Stream>, s: Stream)
    ensures StreamIds(streams + [s]) == StreamIds(streams) + [s.id]
    decreases |streams|
  {
    if streams != [] {
      StreamIdsAppend(streams[1..], s);
      assert (streams + [s])[1..] == streams[1..] + [s];
    }
  }

  lemma AddIsOneMore(a: Document, b: Document, u: Equipment, o: Shown)
    requires b == a.(units := a.units + [u], objects := a.objects + [o]) && o.id == u.id
    ensures OneMore(a, b, o)
  {
    UnitIdsAppend(a.units, u);
    assert Elements(ObjectIds(b)) == Elements(ObjectIds(a)) + {u.id};
  }

  lemma ConnectIsOneMore(a: Document, b: Document, s: Stream, o: Shown)
    requires b == a.(streams := a.streams + [s], objects := a.objects + [o], nextNumber := b.nextNumber) && o.id == s.id
    ensures OneMore(a, b, o)
  {
    StreamIdsAppend(a.streams, s);
    assert Elements(ObjectIds(b)) == Elements(ObjectIds(a)) + {s.id};
  }

  lemma GoodOfFirst(p: Policy, prefix: string, padding: nat, used: set<string>, from: nat, n: nat)
    requires FoldsDigits(p.fold) && IsFirstFree(p.fold, prefix, padding, used, from, n)
    ensures n == FirstFree(p.fold, prefix, padding, used, from)
    ensures GoodTag(p, TagOf(prefix, padding, n)) <==> FirstTagIsGood(p, prefix, padding, used, from)
  {
    hide FirstFree, TagOf, GoodTag, FoldsDigits;
    FirstFreeIsUnique(p.fold, prefix, padding, used, from, n, FirstFree(p.fold, prefix, padding, used, from));
    hide IsFirstFree;
    if FirstTagIsGood(p, prefix, padding, used, from) {
      var m :| IsFirstFree(p.fold, prefix, padding, used, from, m) && GoodTag(p, TagOf(prefix, padding, m));
      FirstFreeIsUnique(p.fold, prefix, padding, used, from, n, m);
    }
  }

  /** The tag with the first free number is one that may be given. */
  ghost predicate FirstTagIsGood(p: Policy, prefix: string, padding: nat, used: set<string>, from: nat) {
    exists n :: IsFirstFree(p.fold, prefix, padding, used, from, n) && GoodTag(p, TagOf(prefix, padding, n))
  }

  /** The new identity is none of the document's. */
  predicate Fresh(d: Document, id: Id) {
    id != "" && id !in ObjectIds(d)
  }

  lemma FreeTakesNoTag(p: Policy, a: Document, b: Document, o: Shown)
    requires Folded(p.fold, o.tag) !in FoldedTags(p.fold, a.objects)
    ensures TakesNoTag(p, a, b, o)
  {
    hide Folded;
    forall i | 0 <= i < |a.objects| ensures Folded(p.fold, a.objects[i].tag) in FoldedTags(p.fold, a.objects) {
      assert a.objects[i] in a.objects;
    }
  }

  /** One more object under an unused tag is taken exactly when it is new and the tag good. */
  lemma FreshIff(p: Policy, a: Document, b: Document, o: Shown)
    requires Check(p, a) && OneMore(a, b, o) && Folded(p.fold, o.tag) !in FoldedTags(p.fold, a.objects)
    ensures Check(p, b) <==> Fresh(a, o.id) && GoodTag(p, o.tag)
  {
    FreeTakesNoTag(p, a, b, o);
    hide Check, OneMore, TakesNoTag, GoodTag, ObjectIds, FoldedTags;
    GrowsIff(p, a, b, o);
  }

  /** Equipment is added exactly of a known model, under a new identity, if its tag is good. */
  lemma AddIff(p: Policy, d: Document, model: string, layout: nat, made: Id)
    requires FoldsDigits(p.fold) && Check(p, Recovered(d))
    ensures Apply(p, d, Add(model, layout), made).Success? <==>
      && model in p.catalogue && Fresh(d, made)
      && FirstTagIsGood(p, p.catalogue[model].title + "-", 3, FoldedTags(p.fold, d.objects), 1)
  {
    var b := Recovered(d);
    RecoveredStreams(d);
    hide Check, ObjectIds, FirstFree, TagOf, FoldedTags, OneMore, FirstTagIsGood, GoodTag, Folded;
    if model in p.catalogue {
      var prefix, used := p.catalogue[model].title + "-", FoldedTags(p.fold, d.objects);
      var n := FirstFree(p.fold, prefix, 3, used, 1);
      var u, o := Equipment(made, model, 0), Shown(made, TagOf(prefix, 3, n), None, None, layout);
      GoodOfFirst(p, prefix, 3, used, 1, n);
      var r := b.(units := b.units + [u], objects := b.objects + [o]);
      AddIsOneMore(b, r, u, o);
      FreshIff(p, b, r, o);
    }
  }

  /** An open output and an open input of one medium. */
  predicate Joinable(p: Policy, d: Document, e: Edit)
    requires e.Connect?
  {
    && Open(p, d, e.source, e.sourcePort, Output) && Open(p, d, e.target, e.targetPort, Input)
    && PortOf(p.catalogue, d.units, e.source, e.sourcePort, Output).value.medium
         == PortOf(p.catalogue, d.units, e.target, e.targetPort, Input).value.medium
  }

  /** The number a connection takes, and the document with it. */
  function NumberTaken(p: Policy, d: Document): nat
    requires FoldsDigits(p.fold)
  {
    FirstFree(p.fold, d.settings.prefix, d.settings.padding, FoldedTags(p.fold, d.objects),
      if d.nextNumber > d.settings.start then d.nextNumber else d.settings.start)
  }

  function StreamShown(d: Document, made: Id, n: nat): Shown {
    Shown(made, TagOf(d.settings.prefix, d.settings.padding, n), None, None, 0)
  }

  function Joined(d: Document, e: Edit, made: Id, n: nat): Document
    requires e.Connect?
  {
    d.(streams := d.streams + [NewStream(e, made)], objects := d.objects + [StreamShown(d, made, n)],
       nextNumber := n + 1)
  }

  lemma JoinsIf(p: Policy, d: Document, e: Edit, made: Id)
    requires FoldsDigits(p.fold) && e.Connect?
    ensures Elementary(p, d, e, made).Success? <==>
      e.source != e.target && Joinable(p, d, e) && Check(p, Joined(d, e, made, NumberTaken(p, d)))
  {
    FreeIffOpen(p, d, e.source, e.sourcePort, Output);
    FreeIffOpen(p, d, e.target, e.targetPort, Input);
    ConnectsIf(p, d, e, made);
    hide Check, Elementary, FreePort, PortOf, Open, Joined, NumberTaken;
  }

  lemma ConnectsIf(p: Policy, d: Document, e: Edit, made: Id)
    requires FoldsDigits(p.fold) && e.Connect?
    ensures var out := FreePort(p, d, e.source, e.sourcePort, Output);
      var into := FreePort(p, d, e.target, e.targetPort, Input);
      Elementary(p, d, e, made).Success? <==>
        && e.source != e.target && out.Success? && into.Success? && out.value.medium == into.value.medium
        && Check(p, Joined(d, e, made, NumberTaken(p, d)))
  {
    hide Check, FirstFree, TagOf, FoldedTags, FreePort;
  }

  lemma JoinableAlike(p: Policy, d: Document, e: Edit)
    requires e.Connect?
    ensures Joinable(p, Recovered(d), e) <==> Joinable(p, d, e)
  {
    hide PortOf, Occupied;
  }

  /** A connection is made exactly between two units, at an open output and an open input of one
      medium, under a new identity, if its tag is good. */
  lemma ConnectIff(p: Policy, d: Document, e: Edit, made: Id)
    requires FoldsDigits(p.fold) && e.Connect? && Check(p, Recovered(d))
    ensures Apply(p, d, e, made).Success? <==>
      && e.source != e.target && Joinable(p, d, e) && Fresh(d, made)
      && FirstTagIsGood(p, d.settings.prefix, d.settings.padding, FoldedTags(p.fold, d.objects),
                        if d.nextNumber > d.settings.start then d.nextNumber else d.settings.start)
  {
    var b := Recovered(d);
    RecoveredStreams(d);
    var n := NumberTaken(p, b);
    var o, r := StreamShown(b, made, n), Joined(b, e, made, n);
    ConnectIsOneMore(b, r, NewStream(e, made), o);
    hide Check, ObjectIds, FirstFree, TagOf, FoldedTags, OneMore, FirstTagIsGood, GoodTag, Folded, Elementary, Joinable,
         Joined;
    var from := if d.nextNumber > d.settings.start then d.nextNumber else d.settings.start;
    JoinsIf(p, b, e, made);
    JoinableAlike(p, d, e);
    GoodOfFirst(p, d.settings.prefix, d.settings.padding, FoldedTags(p.fold, d.objects), from, n);
    FreshIff(p, b, r, o);
  }

  // ---- The same objects -----------------------------------------------------------------------

  /** The two documents have the same identities and groups; inputs, tags, lineages and layouts may
      differ. */
  predicate Alike(a: Document, b: Document) {
    && UnitIds(b.units) == UnitIds(a.units) && b.streams == a.streams
    && |b.objects| == |a.objects| && (forall i :: 0 <= i < |a.objects| ==> b.objects[i].id == a.objects[i].id)
    && b.groups == a.groups && b.activeGroup == a.activeGroup && b.subsystems == a.subsystems
  }

  lemma AlikeIff(p: Policy, a: Document, b: Document)
    requires Check(p, a) && Alike(a, b)
    ensures Check(p, b) <==> TagsGood(p, b) && TagsUnique(p, b)
    ensures TagsGood(p, a) && TagsUnique(p, a)
  {
    CheckParts(p, a);
    CheckParts(p, b);
    hide Check, TagsUnique, TagsGood;
    assert ShownIds(a.objects) == ShownIds(b.objects);
    hide ShownIds, UnitIds, Elements, Distinct;
  }

  /** A configuration is taken exactly of a unit that is there, with inputs that are accepted. */
  lemma ConfigureIff(p: Policy, d: Document, id: Id, inputs: Option<nat>, made: Id)
    requires FoldsDigits(p.fold) && Check(p, Recovered(d))
    ensures Apply(p, d, Configure(id, inputs), made).Success? <==> id in UnitIds(d.units) && inputs.Some?
  {
    var b := Recovered(d);
    if id in UnitIds(d.units) && inputs.Some? {
      var r := b.(units := WithInputs(b.units, id, inputs.value));
      DistinctUnits(p, b);
      WithInputsAt(b.units, id, inputs.value);
      assert UnitIds(r.units) == UnitIds(b.units);
      SameTags(p, b, r);
      hide *;
    }
  }

  lemma SameTags(p: Policy, a: Document, b: Document)
    requires Check(p, a) && Alike(a, b) && forall i :: 0 <= i < |a.objects| ==> b.objects[i].tag == a.objects[i].tag
    ensures Check(p, b)
  {
    AlikeIff(p, a, b);
    hide Check, GoodTag, StreamIds, Folded, UnitIds;
  }

  lemma Arranges(p: Policy, d: Document, id: Id, layout: nat, made: Id)
    requires FoldsDigits(p.fold) && FindShown(d.objects, id).Some?
    ensures var o := FindShown(d.objects, id).value;
      o.id == id && (Check(p, d.(objects := WithShown(d.objects, o.(layout := layout)))) ==>
        Elementary(p, d, Arrange(id, layout), made).Success?)
  {
    hide Check, WithShown;
  }

  /** Every object that is shown may be arranged. */
  lemma ArrangeIff(p: Policy, d: Document, id: Id, layout: nat, made: Id)
    requires FoldsDigits(p.fold) && Check(p, Recovered(d))
    ensures Apply(p, d, Arrange(id, layout), made).Success? <==> id in ShownIds(d.objects)
  {
    var b := Recovered(d);
    RecoveredStreams(d);
    FoundIffShown(d.objects, id);
    MissingIsRefused(p, d, Arrange(id, layout), made);
    hide Check, WithShown, FindShown, Alike, Recovered, Elementary;
    if id in ShownIds(d.objects) {
      Arranges(p, b, id, layout, made);
      var o := FindShown(b.objects, id).value;
      RearrangedIsAlike(p, b, o, layout);
      SameTags(p, b, b.(objects := WithShown(b.objects, o.(layout := layout))));
    }
  }

  lemma RearrangedIsAlike(p: Policy, d: Document, o: Shown, layout: nat)
    requires Check(p, d) && FindShown(d.objects, o.id) == Some(o)
    ensures var r := d.(objects := WithShown(d.objects, o.(layout := layout)));
      Alike(d, r) && forall i :: 0 <= i < |d.objects| ==> r.objects[i].tag == d.objects[i].tag
  {
    hide *;
    DistinctObjects(p, d);
    FoundOnce(d.objects, o.id);
    WithShownAt(d.objects, o.(layout := layout));
    LayoutAside(d, o, layout);
  }

  lemma LayoutAside(d: Document, o: Shown, layout: nat)
    requires var r := WithShown(d.objects, o.(layout := layout));
      && |r| == |d.objects| && (forall i :: 0 <= i < |r| ==>
           r[i] == if d.objects[i].id == o.id then o.(layout := layout) else d.objects[i])
    requires forall i :: 0 <= i < |d.objects| && d.objects[i].id == o.id ==> d.objects[i] == o
    ensures var r := d.(objects := WithShown(d.objects, o.(layout := layout)));
      Alike(d, r) && forall i :: 0 <= i < |d.objects| ==> r.objects[i].tag == d.objects[i].tag
  {
    hide WithShown, UnitIds;
  }
}
