/** Whole editing sessions, and what an empty port name does to them. */
module PfdSessions {
  import opened Wrappers
  import opened Tags
  import opened Pfd
  import opened PfdWiring
  import opened PfdSplit
  import opened PfdPaste

  datatype Command =
    | One(edit: Edit, made: Id)
    | SplitOne(id: Id, layout: nat, target: Id, port: string, ids: seq<Id>)
    | PasteOne(clip: Clip, copies: seq<Id>)

  predicate Supplied(c: Command) {
    match c
    case One(_, _) => true
    case SplitOne(_, _, _, _, ids) => |ids| == 4
    case PasteOne(clip, copies) => |copies| == |clip.source.units| + |clip.source.streams|
  }

  /** A rejected command leaves the document as it was. */
  function Edited(p: Policy, d: Document, c: Command): Document
    requires FoldsDigits(p.fold) && Supplied(c)
  {
    var r := match c
      case One(edit, made) => Apply(p, d, edit, made)
      case SplitOne(id, layout, target, port, ids) => SplitStream(p, d, id, layout, target, port, ids)
      case PasteOne(clip, copies) => Paste(p, d, clip, copies);
    if r.Success? then r.value else d
  }

  function EditedAll(p: Policy, d: Document, cs: seq<Command>): Document
    requires FoldsDigits(p.fold) && forall k :: 0 <= k < |cs| ==> Supplied(cs[k])
    decreases |cs|
  {
    if cs == [] then d else EditedAll(p, Edited(p, d, cs[0]), cs[1..])
  }

  /** Over every sequence of commands, accepted or not, a sound wiring stays sound, though no check
      ever looks at it. */
  lemma {:induction false} EditingKeepsWiring(p: Policy, d: Document, cs: seq<Command>)
    requires FoldsDigits(p.fold) && NamedPorts(p.catalogue) && Wired(p, d)
    requires forall k :: 0 <= k < |cs| ==> Supplied(cs[k])
    ensures Wired(p, EditedAll(p, d, cs))
    decreases |cs|
  {
    hide Apply, SplitStream, Paste, Sound, NamedPorts;
    if cs != [] {
      match cs[0] {
        case One(edit, made) => if Apply(p, d, edit, made).Success? { ApplyKeepsWiring(p, d, edit, made); }
        case SplitOne(id, layout, target, port, ids) =>
          if SplitStream(p, d, id, layout, target, port, ids).Success? {
            SplitKeepsWiring(p, d, id, layout, target, port, ids);
          }
        case PasteOne(clip, copies) => if Paste(p, d, clip, copies).Success? { PasteKeepsWiring(p, d, clip, copies); }
      }
      EditingKeepsWiring(p, Edited(p, d, cs[0]), cs[1..]);
    }
  }

  // ---- A port without a name ------------------------------------------------------------------

  /** A catalogue with an output whose name is empty. */
  const NAMELESS := Policy(
    map["a" := Model("A", [Port("", Output, Material, 1)]), "b" := Model("BB", [Port("in-0", Input, Material, 1)])],
    c => [c], c => c == ' ')

  const TWO_UNITS := Document(
    [Equipment("u", "a", 0), Equipment("vv", "b", 0)], [],
    [Shown("u", "A", None, None, 0), Shown("vv", "BB", None, None, 0)],
    Settings("S-", 1, 3, true, false), 1, [], None, [])

  lemma PaddedOne()
    ensures Padded(1, 3) == "001"
  {
    assert Decimal(1) == "1";
    assert Zeros(2) == "00";
  }

  lemma FirstNumber()
    requires FoldsDigits(NAMELESS.fold)
    ensures NextStreamNumber(NAMELESS, TWO_UNITS) == 1
  {
    PaddedOne();
    var tag := TagOf("S-", 3, 1);
    assert tag == "S-001";
    FoldedPlainly(tag);
    FoldedPlainly("A");
    FoldedPlainly("BB");
    var used := FoldedTags(NAMELESS.fold, TWO_UNITS.objects);
    assert |tag| == 5 && forall t :: t in used ==> |t| <= 2;
    FirstFreeIsUnique(NAMELESS.fold, "S-", 3, used, 1, 1, NextStreamNumber(NAMELESS, TWO_UNITS));
  }

  lemma {:induction false} FoldedPlainly(s: string)
    ensures Folded(NAMELESS.fold, s) == s
    decreases |s|
  {
    if s != "" { FoldedPlainly(s[1..]); }
  }

  const JOINED := TWO_UNITS.(
    streams := [Stream("sss", "u", "vv", Some(""), Some("in-0"))],
    objects := [Shown("u", "A", None, None, 0), Shown("vv", "BB", None, None, 0), Shown("sss", "S-001", None, None, 0)],
    nextNumber := 2)

  lemma TwoUnitsIds()
    ensures UnitIds(TWO_UNITS.units) == ["u", "vv"] && StreamIds(TWO_UNITS.streams) == []
    ensures ObjectIds(TWO_UNITS) == ["u", "vv"] && ShownIds(TWO_UNITS.objects) == ["u", "vv"]
    ensures Distinct(["u", "vv"])
  {
    assert |"u"| == 1 && |"vv"| == 2;
  }

  lemma TwoUnitsTags()
    ensures forall o :: o in TWO_UNITS.objects ==> ValidTag(NAMELESS, o.tag)
    ensures TagsUnique(NAMELESS, TWO_UNITS)
  {
    TwoUnitsIds();
  }

  lemma TwoUnitsCheck()
    ensures Check(NAMELESS, TWO_UNITS) && Recovered(TWO_UNITS) == TWO_UNITS
  {
    TwoUnitsIds();
    TwoUnitsTags();
    hide UnitIds, StreamIds, ObjectIds, ShownIds, ValidTag, TagsUnique;
  }

  lemma JoinedIds()
    ensures ObjectIds(JOINED) == ["u", "vv", "sss"] && ShownIds(JOINED.objects) == ["u", "vv", "sss"]
    ensures StreamIds(JOINED.streams) == ["sss"] && Distinct(["u", "vv", "sss"])
  {
    assert UnitIds(JOINED.units) == ["u", "vv"];
    assert |"u"| == 1 && |"vv"| == 2 && |"sss"| == 3;
  }

  lemma JoinedTags()
    ensures forall o :: o in JOINED.objects ==> ValidTag(NAMELESS, o.tag)
    ensures TagsUnique(NAMELESS, JOINED)
  {
    JoinedIds();
    assert |"u"| == 1 && |"vv"| == 2 && |"sss"| == 3;
    forall i | 0 <= i < 3 && JOINED.objects[i].id in StreamIds(JOINED.streams) ensures i == 2 {
      assert |JOINED.objects[i].id| == i + 1;
    }
  }

  lemma JoinedChecks()
    ensures Check(NAMELESS, JOINED)
  {
    JoinedIds();
    JoinedTags();
    hide ObjectIds, ShownIds, StreamIds, UnitIds, Distinct, ValidTag, TagsUnique;
    assert GroupIds([]) == [] && Distinct<Id>([]) by { DistinctEmpty(); }
    assert |""| == 0 && |"u"| == 1 && |"vv"| == 2 && |"sss"| == 3;
  }

  lemma DistinctEmpty()
    ensures Distinct<Id>([])
  {
  }

  lemma EndsAreFree()
    ensures FreePort(NAMELESS, TWO_UNITS, "u", "", Output) == Success(Port("", Output, Material, 1))
    ensures FreePort(NAMELESS, TWO_UNITS, "vv", "in-0", Input) == Success(Port("in-0", Input, Material, 1))
    ensures PortOf(NAMELESS.catalogue, TWO_UNITS.units, "u", "out-0", Output) == None
  {
    var units := TWO_UNITS.units;
    assert units[1..] == [Equipment("vv", "b", 0)];
    assert FindUnit(units, "u") == Some(units[0]);
    assert FindUnit(units, "vv") == Some(units[1]) by { assert FindUnit(units[1..], "vv") == Some(units[1]); }
    assert [Port("", Output, Material, 1)][1..] == [];
  }

  /** An accepted connection, spelled out. */
  lemma ConnectionGives(p: Policy, d: Document, e: Edit, made: Id, n: nat, r: Document)
    requires FoldsDigits(p.fold) && e.Connect? && Check(p, d) && Recovered(d) == d && e.source != e.target
    requires var o := FreePort(p, d, e.source, e.sourcePort, Output);
      var i := FreePort(p, d, e.target, e.targetPort, Input);
      o.Success? && i.Success? && o.value.medium == i.value.medium
    requires n == NextStreamNumber(p, d) && Check(p, r)
    requires r == d.(streams := d.streams + [NewStream(e, made)],
                     objects := d.objects
                       + [Shown(made, TagOf(d.settings.prefix, d.settings.padding, n), None, None, 0)],
                     nextNumber := n + 1)
    ensures Apply(p, d, e, made) == Success(r)
  {
    hide Check, FreePort, Padded, FirstFree;
  }

  lemma JoinedIsNext()
    ensures TagOf("S-", 3, 1) == "S-001"
    ensures JOINED.streams == TWO_UNITS.streams + [NewStream(Connect("u", "", "vv", "in-0"), "sss")]
    ensures JOINED.objects == TWO_UNITS.objects + [Shown("sss", "S-001", None, None, 0)]
  {
    PaddedOne();
    hide Padded;
  }

  lemma NamelessIsAccepted()
    requires FoldsDigits(NAMELESS.fold)
    ensures Apply(NAMELESS, TWO_UNITS, Connect("u", "", "vv", "in-0"), "sss") == Success(JOINED)
  {
    TwoUnitsCheck();
    JoinedChecks();
    EndsAreFree();
    FirstNumber();
    JoinedIsNext();
    assert |"u"| == 1 && |"vv"| == 2;
    hide *;
    ConnectionGives(NAMELESS, TWO_UNITS, Connect("u", "", "vv", "in-0"), "sss", 1, JOINED);
  }

  lemma JoinedIsUnwired()
    ensures !Wired(NAMELESS, JOINED)
  {
    EndsAreFree();
    hide PortOf, Leaving, Arriving;
    assert !Joined(NAMELESS.catalogue, JOINED.units, JOINED.streams, JOINED.streams[0]);
  }

  /** Without that condition the wiring is not kept: the connection is accepted at the port with
      the empty name, but stands for one at a port that the unit does not have. */
  lemma NamelessPortBreaksWiring()
    ensures FoldsDigits(NAMELESS.fold) && Wired(NAMELESS, TWO_UNITS)
    ensures var r := Apply(NAMELESS, TWO_UNITS, Connect("u", "", "vv", "in-0"), "sss");
      r.Success? && !Wired(NAMELESS, r.value)
  {
    hide Apply;
    assert FoldsDigits(NAMELESS.fold);
    NamelessIsAccepted();
    JoinedIsUnwired();
  }
}
