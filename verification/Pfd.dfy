/** The editing policy: documents, their check, and the commands that change them. */
module Pfd {
  import opened Wrappers
  import opened Tags

  type Id = string

  datatype Direction = Output | Input

  datatype Medium = Material | Energy

  datatype Port = Port(name: string, direction: Direction, medium: Medium, maximum: int)

  datatype Model = Model(title: string, ports: seq<Port>)

  type Catalogue = map<string, Model>

  /** Equipment, with its parameters left opaque. */
  datatype Equipment = Equipment(id: Id, model: string, inputs: nat)

  datatype Stream = Stream(id: Id, source: Id, target: Id, sourcePort: Option<string>, targetPort: Option<string>)

  /** The presentation of an object: its tag, its branch lineage, and an opaque layout. */
  datatype Shown = Shown(id: Id, tag: string, parent: Option<Id>, suffix: Option<string>, layout: nat)

  datatype Settings = Settings(prefix: string, start: nat, padding: nat, suffixed: bool, nextAvailable: bool)

  /** A named set of streams or objects. */
  datatype Group = Group(id: Id, members: seq<Id>)

  datatype Document = Document(
    units: seq<Equipment>,
    streams: seq<Stream>,
    objects: seq<Shown>,
    settings: Settings,
    nextNumber: nat,
    groups: seq<Group>,
    activeGroup: Option<Id>,
    subsystems: seq<Group>)

  /** What the policy is given: the catalogue, case folding, and which characters are space. */
  datatype Policy = Policy(catalogue: Catalogue, fold: Folding, space: char -> bool)

  datatype Rejection =
    | Missing | SelfConnection | PortDirection | PortOccupied | PortKind | ConnectedDelete | TagConflict
    | InvalidInput | CheckFailed

  // ---- Lists of things with identities --------------------------------------------------------

  function UnitIds(units: seq<Equipment>): (r: seq<Id>)
    ensures |r| == |units| && forall i :: 0 <= i < |r| ==> r[i] == units[i].id
  {
    if units == [] then [] else [units[0].id] + UnitIds(units[1..])
  }

  function StreamIds(streams: seq<Stream>): (r: seq<Id>)
    ensures |r| == |streams| && forall i :: 0 <= i < |r| ==> r[i] == streams[i].id
  {
    if streams == [] then [] else [streams[0].id] + StreamIds(streams[1..])
  }

  function ShownIds(objects: seq<Shown>): (r: seq<Id>)
    ensures |r| == |objects| && forall i :: 0 <= i < |r| ==> r[i] == objects[i].id
  {
    if objects == [] then [] else [objects[0].id] + ShownIds(objects[1..])
  }

  function GroupIds(groups: seq<Group>): (r: seq<Id>)
    ensures |r| == |groups| && forall i :: 0 <= i < |r| ==> r[i] == groups[i].id
  {
    if groups == [] then [] else [groups[0].id] + GroupIds(groups[1..])
  }

  predicate Distinct<T(==)>(xs: seq<T>) {
    forall i, j :: 0 <= i < j < |xs| ==> xs[i] != xs[j]
  }

  function ObjectIds(d: Document): seq<Id> {
    UnitIds(d.units) + StreamIds(d.streams)
  }

  /** The first unit with an identity. */
  function FindUnit(units: seq<Equipment>, id: Id): (r: Option<Equipment>)
    ensures r.Some? <==> id in UnitIds(units)
    ensures r.Some? ==> r.value in units && r.value.id == id
  {
    if units == [] then None else if units[0].id == id then Some(units[0]) else FindUnit(units[1..], id)
  }

  function FindStream(streams: seq<Stream>, id: Id): (r: Option<Stream>)
    ensures r.Some? <==> id in StreamIds(streams)
    ensures r.Some? ==> r.value in streams && r.value.id == id
  {
    if streams == [] then None else if streams[0].id == id then Some(streams[0]) else FindStream(streams[1..], id)
  }

  function FindShown(objects: seq<Shown>, id: Id): (r: Option<Shown>)
    ensures r.Some? ==> r.value in objects && r.value.id == id
  {
    if objects == [] then None else if objects[0].id == id then Some(objects[0]) else FindShown(objects[1..], id)
  }

  /** The object table with one entry replaced in place. */
  function WithShown(objects: seq<Shown>, o: Shown): seq<Shown> {
    if objects == [] then []
    else (if objects[0].id == o.id then [o] else [objects[0]]) + WithShown(objects[1..], o)
  }

  function WithInputs(units: seq<Equipment>, id: Id, inputs: nat): seq<Equipment> {
    if units == [] then []
    else if units[0].id == id then [units[0].(inputs := inputs)] + units[1..]
    else [units[0]] + WithInputs(units[1..], id, inputs)
  }

  function UnitsWithout(units: seq<Equipment>, ids: set<Id>): seq<Equipment> {
    if units == [] then []
    else (if units[0].id in ids then [] else [units[0]]) + UnitsWithout(units[1..], ids)
  }

  function StreamsWithout(streams: seq<Stream>, ids: set<Id>): seq<Stream> {
    if streams == [] then []
    else (if streams[0].id in ids then [] else [streams[0]]) + StreamsWithout(streams[1..], ids)
  }

  /** The objects that stay, losing their lineage when its parent goes. */
  function ShownWithout(objects: seq<Shown>, ids: set<Id>): seq<Shown> {
    if objects == [] then []
    else
      var o := objects[0];
      (if o.id in ids then []
       else [if o.parent.Some? && o.parent.value in ids then o.(parent := None, suffix := None) else o])
      + ShownWithout(objects[1..], ids)
  }

  function MembersWithout(members: seq<Id>, ids: set<Id>): seq<Id> {
    if members == [] then []
    else (if members[0] in ids then [] else [members[0]]) + MembersWithout(members[1..], ids)
  }

  function MembersWithin(members: seq<Id>, ids: seq<Id>): seq<Id> {
    if members == [] then []
    else (if members[0] in ids then [members[0]] else []) + MembersWithin(members[1..], ids)
  }

  function GroupsWithout(groups: seq<Group>, ids: set<Id>): seq<Group> {
    if groups == [] then []
    else [groups[0].(members := MembersWithout(groups[0].members, ids))] + GroupsWithout(groups[1..], ids)
  }

  function GroupsWithin(groups: seq<Group>, ids: seq<Id>): seq<Group> {
    if groups == [] then []
    else [groups[0].(members := MembersWithin(groups[0].members, ids))] + GroupsWithin(groups[1..], ids)
  }

  function GroupsExcept(groups: seq<Group>, id: Id): seq<Group> {
    if groups == [] then []
    else (if groups[0].id == id then [] else [groups[0]]) + GroupsExcept(groups[1..], id)
  }

  function FoldedTags(fold: Folding, objects: seq<Shown>): set<string> {
    set o | o in objects :: Folded(fold, o.tag)
  }

  // ---- The check ------------------------------------------------------------------------------

  predicate ValidTag(p: Policy, tag: string) {
    && tag != "" && !p.space(tag[0]) && !p.space(tag[|tag| - 1])
    && |tag| <= 64
    && forall i :: 0 <= i < |tag| ==> tag[i] as int >= 32
  }

  /** Stream tags are unique ignoring case. */
  predicate TagsUnique(p: Policy, d: Document) {
    forall i, j | 0 <= i < j < |d.objects| ::
      d.objects[i].id in StreamIds(d.streams) && d.objects[j].id in StreamIds(d.streams) ==>
        Folded(p.fold, d.objects[i].tag) != Folded(p.fold, d.objects[j].tag)
  }

  predicate Check(p: Policy, d: Document) {
    var ids := ObjectIds(d);
    && Distinct(ids) && "" !in ids
    && |d.objects| == |ids| && (forall id :: id in ids ==> id in ShownIds(d.objects))
    && (forall id :: id in ShownIds(d.objects) ==> id in ids)
    && (forall o :: o in d.objects ==> ValidTag(p, o.tag))
    && TagsUnique(p, d)
    && Distinct(GroupIds(d.groups)) && (d.activeGroup.Some? ==> d.activeGroup.value in GroupIds(d.groups))
    && (forall g :: g in d.groups ==> forall id :: id in g.members ==> id in StreamIds(d.streams))
    && Distinct(GroupIds(d.subsystems))
    && (forall g :: g in d.subsystems ==> forall id :: id in g.members ==> id in ids)
  }

  /** Stale visual membership is dropped. */
  function Recovered(d: Document): Document {
    d.(groups := GroupsWithin(d.groups, StreamIds(d.streams)),
       activeGroup :=
         if d.activeGroup.Some? && d.activeGroup.value !in GroupIds(d.groups) then None else d.activeGroup)
  }

  // ---- Ports ----------------------------------------------------------------------------------

  function FindPort(ports: seq<Port>, name: string, direction: Direction): (r: Option<Port>)
    ensures r.Some? ==> r.value in ports && r.value.name == name && r.value.direction == direction
  {
    if ports == [] then None
    else if ports[0].name == name && ports[0].direction == direction then Some(ports[0])
    else FindPort(ports[1..], name, direction)
  }

  /** A missing or empty locator means the first port. */
  function OutPort(s: Stream): string {
    if s.sourcePort.Some? && s.sourcePort.value != "" then s.sourcePort.value else "out-0"
  }

  function InPort(s: Stream): string {
    if s.targetPort.Some? && s.targetPort.value != "" then s.targetPort.value else "in-0"
  }

  /** How many streams leave from, or arrive at, a port name of a unit; and how many do either. */
  function Leaving(streams: seq<Stream>, id: Id, name: string): nat {
    if streams == [] then 0
    else (if streams[0].source == id && OutPort(streams[0]) == name then 1 else 0) + Leaving(streams[1..], id, name)
  }

  function Arriving(streams: seq<Stream>, id: Id, name: string): nat {
    if streams == [] then 0
    else (if streams[0].target == id && InPort(streams[0]) == name then 1 else 0) + Arriving(streams[1..], id, name)
  }

  function Occupied(streams: seq<Stream>, id: Id, name: string): nat {
    if streams == [] then 0
    else
      var s := streams[0];
      (if (s.source == id && OutPort(s) == name) || (s.target == id && InPort(s) == name) then 1 else 0)
      + Occupied(streams[1..], id, name)
  }

  /** The catalogue's port of a unit. */
  function PortOf(c: Catalogue, units: seq<Equipment>, id: Id, name: string, direction: Direction): Option<Port> {
    match FindUnit(units, id)
    case None => None
    case Some(u) => if u.model in c then FindPort(c[u.model].ports, name, direction) else None
  }

  /** A port a stream may be joined to. */
  function FreePort(p: Policy, d: Document, id: Id, name: string, direction: Direction): Result<Port, Rejection> {
    match FindUnit(d.units, id)
    case None => Failure(Missing)
    case Some(u) =>
      if u.model !in p.catalogue then Failure(Missing)
      else
        match FindPort(p.catalogue[u.model].ports, name, direction)
        case None => Failure(PortDirection)
        case Some(port) =>
          if Occupied(d.streams, id, name) >= port.maximum then Failure(PortOccupied) else Success(port)
  }

  // ---- Edits ----------------------------------------------------------------------------------

  datatype Edit =
    | Add(model: string, layout: nat)
    | Connect(source: Id, sourcePort: string, target: Id, targetPort: string)
    | Remove(ids: seq<Id>, confirmed: bool)
    | Configure(id: Id, inputs: Option<nat>)
    | Rename(id: Id, tag: string, swap: bool, family: bool)
    | Arrange(id: Id, layout: nat)
    | Restyle(settings: Settings)
    | UpsertGroup(group: Group)
    | RemoveGroup(groupId: Id)
    | Activate(active: Option<Id>)
    | UpsertSubsystem(subsystem: Group)
    | RemoveSubsystem(subsystemId: Id)

  function Checked(p: Policy, d: Document): Result<Document, Rejection> {
    if Check(p, d) then Success(d) else Failure(CheckFailed)
  }

  function NextStreamNumber(p: Policy, d: Document): (n: nat)
    requires FoldsDigits(p.fold)
    ensures n >= d.nextNumber
    ensures Folded(p.fold, TagOf(d.settings.prefix, d.settings.padding, n)) !in FoldedTags(p.fold, d.objects)
  {
    FirstFree(p.fold, d.settings.prefix, d.settings.padding, FoldedTags(p.fold, d.objects),
      if d.nextNumber > d.settings.start then d.nextNumber else d.settings.start)
  }

  function Added(p: Policy, d: Document, model: string, layout: nat, made: Id): Result<Document, Rejection>
    requires FoldsDigits(p.fold)
  {
    if model !in p.catalogue then Failure(Missing)
    else
      var prefix := p.catalogue[model].title + "-";
      var n := FirstFree(p.fold, prefix, 3, FoldedTags(p.fold, d.objects), 1);
      Checked(p, d.(units := d.units + [Equipment(made, model, 0)],
                    objects := d.objects + [Shown(made, TagOf(prefix, 3, n), None, None, layout)]))
  }

  function Connected(p: Policy, d: Document, source: Id, sourcePort: string, target: Id, targetPort: string, made: Id):
      Result<Document, Rejection>
    requires FoldsDigits(p.fold)
  {
    if source == target then Failure(SelfConnection)
    else
      var output := FreePort(p, d, source, sourcePort, Output);
      if output.Failure? then Failure(output.error)
      else
        var incoming := FreePort(p, d, target, targetPort, Input);
        if incoming.Failure? then Failure(incoming.error)
        else if output.value.medium != incoming.value.medium then Failure(PortKind)
        else
          var n := NextStreamNumber(p, d);
          Checked(p, d.(streams := d.streams + [Stream(made, source, target, Some(sourcePort), Some(targetPort))],
                        objects := d.objects
                          + [Shown(made, TagOf(d.settings.prefix, d.settings.padding, n), None, None, 0)],
                        nextNumber := n + 1))
  }

  function Attached(streams: seq<Stream>, ids: set<Id>): set<Id> {
    set s | s in streams && (s.source in ids || s.target in ids) :: s.id
  }

  function Removed(p: Policy, d: Document, ids: seq<Id>, confirmed: bool): Result<Document, Rejection> {
    var selected := set id | id in ids;
    var attached := Attached(d.streams, selected);
    if exists id :: id in ids && id !in ShownIds(d.objects) then Failure(Missing)
    else if attached != {} && !confirmed then Failure(ConnectedDelete)
    else
      var gone := selected + attached;
      Checked(p, d.(units := UnitsWithout(d.units, gone), streams := StreamsWithout(d.streams, gone),
                    objects := ShownWithout(d.objects, gone), groups := GroupsWithout(d.groups, gone),
                    subsystems := GroupsWithout(d.subsystems, gone)))
  }

  /** Another stream whose tag is the same ignoring case. */
  function Conflict(p: Policy, d: Document, objects: seq<Shown>, id: Id, tag: string): (r: Option<Shown>)
    ensures r.Some? ==> r.value.id != id && r.value in objects
  {
    if objects == [] then None
    else
      var o := objects[0];
      if o.id != id && o.id in StreamIds(d.streams) && Folded(p.fold, o.tag) == Folded(p.fold, tag) then Some(o)
      else Conflict(p, d, objects[1..], id, tag)
  }

  /** The tags of a stream's linked branches follow its own. */
  function FamilyRenamed(objects: seq<Shown>, id: Id, tag: string): seq<Shown> {
    if objects == [] then []
    else
      var o := objects[0];
      [if o.parent == Some(id) && o.suffix.Some? && o.suffix.value != "" then o.(tag := tag + o.suffix.value) else o]
      + FamilyRenamed(objects[1..], id, tag)
  }

  function Renamed(p: Policy, d: Document, id: Id, tag: string, swap: bool, family: bool): Result<Document, Rejection>
    requires FoldsDigits(p.fold)
  {
    match FindShown(d.objects, id)
    case None => Failure(Missing)
    case Some(o) =>
      var conflict := Conflict(p, d, d.objects, id, tag);
      var clash := id in StreamIds(d.streams) && conflict.Some?;
      if clash && !swap && !d.settings.nextAvailable then Failure(TagConflict)
      else
        var n := NextStreamNumber(p, d);
        var d1 :=
          if clash && swap then
            d.(objects := WithShown(d.objects, conflict.value.(tag := o.tag, parent := None, suffix := None)))
          else if clash then d.(nextNumber := n + 1)
          else d;
        var tag1 := if clash && !swap then TagOf(d.settings.prefix, d.settings.padding, n) else tag;
        var objects := WithShown(d1.objects, o.(tag := tag1, parent := None, suffix := None));
        Checked(p, d1.(objects := if family then FamilyRenamed(objects, id, tag1) else objects))
  }

  /** One of the elementary edits, on a document already recovered and checked. */
  function Elementary(p: Policy, d: Document, edit: Edit, made: Id): Result<Document, Rejection>
    requires FoldsDigits(p.fold)
  {
    match edit
    case Add(model, layout) => Added(p, d, model, layout, made)
    case Connect(source, sourcePort, target, targetPort) =>
      Connected(p, d, source, sourcePort, target, targetPort, made)
    case Remove(ids, confirmed) => Removed(p, d, ids, confirmed)
    case Configure(id, inputs) =>
      if FindUnit(d.units, id).None? then Failure(Missing)
      else if inputs.None? then Failure(InvalidInput)
      else Checked(p, d.(units := WithInputs(d.units, id, inputs.value)))
    case Rename(id, tag, swap, family) => Renamed(p, d, id, tag, swap, family)
    case Arrange(id, layout) =>
      (match FindShown(d.objects, id)
       case None => Failure(Missing)
       case Some(o) => Checked(p, d.(objects := WithShown(d.objects, o.(layout := layout)))))
    case Restyle(settings) => Checked(p, d.(settings := settings))
    case UpsertGroup(group) => Checked(p, d.(groups := GroupsExcept(d.groups, group.id) + [group]))
    case RemoveGroup(group) =>
      if group !in GroupIds(d.groups) then Failure(Missing)
      else
        Checked(p, d.(groups := GroupsExcept(d.groups, group),
                      activeGroup := if d.activeGroup == Some(group) then None else d.activeGroup))
    case Activate(active) => Checked(p, d.(activeGroup := active))
    case UpsertSubsystem(subsystem) =>
      Checked(p, d.(subsystems := GroupsExcept(d.subsystems, subsystem.id) + [subsystem]))
    case RemoveSubsystem(subsystem) =>
      if subsystem !in GroupIds(d.subsystems) then Failure(Missing)
      else Checked(p, d.(subsystems := GroupsExcept(d.subsystems, subsystem)))
  }

  /** `edit` for an elementary edit: stale membership is dropped and the document checked first. */
  function Apply(p: Policy, d: Document, edit: Edit, made: Id): Result<Document, Rejection>
    requires FoldsDigits(p.fold)
  {
    if Check(p, Recovered(d)) then Elementary(p, Recovered(d), edit, made) else Failure(CheckFailed)
  }

  // ---- Splitting a stream ---------------------------------------------------------------------

  function Relabelled(streams: seq<Stream>, from: Id, to: Id): (r: seq<Stream>)
    ensures |r| == |streams|
    ensures forall i :: 0 <= i < |r| ==> r[i] == if streams[i].id == from then streams[i].(id := to) else streams[i]
  {
    if streams == [] then []
    else [if streams[0].id == from then streams[0].(id := to) else streams[0]] + Relabelled(streams[1..], from, to)
  }

  function RelabelledShown(objects: seq<Shown>, from: Id, to: Id): seq<Shown> {
    if objects == [] then []
    else [if objects[0].id == from then objects[0].(id := to) else objects[0]] + RelabelledShown(objects[1..], from, to)
  }

  /** One branch of a split: a connection from the splitter, named after the stream when branches
      are. */
  function Branched(p: Policy, d: Document, splitter: Id, output: string, target: Id, port: string,
      parent: Shown, suffix: string, suffixed: bool, made: Id): Result<Document, Rejection>
    requires FoldsDigits(p.fold)
  {
    var w := Apply(p, d, Connect(splitter, output, target, port), made);
    if w.Failure? || !suffixed then w
    else
      var r := Apply(p, w.value, Rename(made, parent.tag + suffix, false, true), "");
      if r.Failure? then r
      else
        match FindShown(r.value.objects, made)
        case None => Failure(Missing)
        case Some(o) =>
          Success(r.value.(objects := WithShown(r.value.objects,
            o.(parent := Some(parent.id), suffix := Some(suffix)))))
  }

  /** `_split`: `made` are the identities of the splitter, of the upstream segment until it takes
      over the stream's own, and of the two branches. */
  function Split(p: Policy, d: Document, id: Id, layout: nat, target: Id, port: string, made: seq<Id>):
      Result<Document, Rejection>
    requires FoldsDigits(p.fold) && |made| == 4
  {
    var s := FindStream(d.streams, id);
    var parent := FindShown(d.objects, id);
    if s.None? || parent.None? then Failure(Missing)
    else
      var w1 :- Apply(p, d, Remove([id], true), "");
      var w2 :- Apply(p, w1, Add("splitter", layout), made[0]);
      var w3 :- Apply(p, w2, Connect(s.value.source, OutPort(s.value), made[0], "in-0"), made[1]);
      var w4 :- Apply(p, w3, Rename(made[1], parent.value.tag, false, true), "");
      var w5 := w4.(streams := Relabelled(w4.streams, made[1], id),
        objects := RelabelledShown(w4.objects, made[1], id));
      var w6 :- Branched(p, w5, made[0], "out-0", s.value.target, InPort(s.value), parent.value, "(a)",
        d.settings.suffixed, made[2]);
      var w7 :- Branched(p, w6, made[0], "out-1", target, port, parent.value, "(b)", d.settings.suffixed, made[3]);
      Checked(p, w7)
  }

  /** `edit` for a split. */
  function SplitStream(p: Policy, d: Document, id: Id, layout: nat, target: Id, port: string, made: seq<Id>):
      Result<Document, Rejection>
    requires FoldsDigits(p.fold) && |made| == 4
  {
    if Check(p, Recovered(d)) then Split(p, Recovered(d), id, layout, target, port, made) else Failure(CheckFailed)
  }

  // ---- Pasting --------------------------------------------------------------------------------

  /** What is pasted: the copied document, the selection, whether its connections come along, and
      for each unit the inputs it is configured with, if any and if they are accepted. */
  datatype Clip = Clip(source: Document, ids: seq<Id>, connections: bool, inputs: map<Id, Option<nat>>)

  /** Pastes the selected ones of the first `n` units; `made[i]` is the identity of the copy of
      unit `i`. The new identities come with the document. */
  function PastedUnits(p: Policy, d: Document, clip: Clip, made: seq<Id>, n: nat)
    : Result<(Document, map<Id, Id>), Rejection>
    requires FoldsDigits(p.fold) && n <= |clip.source.units| <= |made|
  {
    if n == 0 then Success((d, map[]))
    else
      var (w, copies) :- PastedUnits(p, d, clip, made, n - 1);
      var unit := clip.source.units[n - 1];
      if unit.id !in clip.ids then Success((w, copies))
      else
        var w1 :- Apply(p, w, Add(unit.model, 0), made[n - 1]);
        var w2 :- if unit.id in clip.inputs then Apply(p, w1, Configure(made[n - 1], clip.inputs[unit.id]), "")
          else Success(w1);
        Success((w2, copies[unit.id := made[n - 1]]))
  }

  /** Then the streams between copied units, as new streams. */
  function PastedStreams(p: Policy, d: Document, clip: Clip, copies: map<Id, Id>, made: seq<Id>, n: nat)
    : Result<Document, Rejection>
    requires FoldsDigits(p.fold) && n <= |clip.source.streams| && |clip.source.units| + n <= |made|
  {
    if n == 0 then Success(d)
    else
      var w :- PastedStreams(p, d, clip, copies, made, n - 1);
      var s := clip.source.streams[n - 1];
      if s.source !in copies || s.target !in copies then Success(w)
      else
        Apply(p, w, Connect(copies[s.source], OutPort(s), copies[s.target], InPort(s)),
          made[|clip.source.units| + n - 1])
  }

  function Paste(p: Policy, d: Document, clip: Clip, made: seq<Id>): Result<Document, Rejection>
    requires FoldsDigits(p.fold) && |made| == |clip.source.units| + |clip.source.streams|
  {
    if !Check(p, Recovered(d)) || !Check(p, clip.source) then Failure(CheckFailed)
    else
      var (w, copies) :- PastedUnits(p, Recovered(d), clip, made, |clip.source.units|);
      if !clip.connections then Success(w)
      else PastedStreams(p, w, clip, copies, made, |clip.source.streams|)
  }
}
