/** What each history command publishes, answers and refuses on a reachable journal. */
module HistoryEffects {
  import opened Wrappers
  import opened History
  import opened HistoryRuns

  /** The entry with an identifier. */
  predicate Named(es: seq<Entry>, id: Id, e: Entry) {
    exists i :: 0 <= i < |es| && es[i] == e && e.id == id
  }

  /** The last identifier of a stack. */
  function Top(ids: seq<Id>): Id
    requires ids != []
  {
    ids[|ids| - 1]
  }

  /** The content a published entry has, by its command. */
  ghost predicate Content(es: seq<Entry>, c: Command, given: Given, e: Entry) {
    match c
    case StartWith(d) => e.after == DigestOf(d)
    case Open(_) => given.legacy.Some? && e.after == DigestOf(given.legacy.value)
    case View(_) => false
    case EditAt(_, _) => given.edited.Success? && e.after == DigestOf(given.edited.value)
    case UndoAt(_) =>
      es != [] && Last(es).undo != [] && exists o :: Named(es, Top(Last(es).undo), o) && e.after == o.before
    case RedoAt(_) =>
      es != [] && Last(es).redo != [] && exists o :: Named(es, Top(Last(es).redo), o) && e.after == o.after
    case SaveAt(_) | SnapshotAt(_, _) => es != [] && e.after == Last(es).after
    case BranchAt(_, origin, _) => exists o :: Named(es, origin, o) && e.after == o.after
  }

  /** Where it stands: on the head's branch, or on a new one that remembers where it left. */
  predicate Place(es: seq<Entry>, c: Command, given: Given, e: Entry) {
    match c
    case StartWith(_) | Open(_) => es == [] && e.branch == Branch(given.branch, None)
    case BranchAt(_, origin, _) => e.branch == Branch(given.branch, Some(origin))
    case EditAt(_, _) =>
      es != [] && e.branch == if Last(es).redo == [] then Last(es).branch else Branch(given.branch, Some(Last(es).id))
    case _ => es != [] && e.branch == Last(es).branch
  }

  function Front(ids: seq<Id>): seq<Id>
    requires ids != []
  {
    ids[..|ids| - 1]
  }

  /** How it moves the stacks, and what it takes back. */
  predicate Stacking(es: seq<Entry>, c: Command, given: Given, e: Entry) {
    match c
    case StartWith(_) | Open(_) | View(_) | BranchAt(_, _, _) => e.undo == e.redo == [] && e.reverses == None
    case EditAt(_, _) => es != [] && e.undo == Last(es).undo + [given.entry] && e.redo == [] && e.reverses == None
    case UndoAt(_) =>
      && es != [] && Last(es).undo != [] && e.reverses == Some(Top(Last(es).undo))
      && e.undo == Front(Last(es).undo) && e.redo == Last(es).redo + [Top(Last(es).undo)]
    case RedoAt(_) =>
      && es != [] && Last(es).redo != [] && e.reverses == Some(Top(Last(es).redo))
      && e.redo == Front(Last(es).redo) && e.undo == Last(es).undo + [Top(Last(es).redo)]
    case SaveAt(_) | SnapshotAt(_, _) =>
      es != [] && e.undo == Last(es).undo && e.redo == Last(es).redo && e.reverses == None
  }

  /** A saved version is recorded by a save, and by the opening that imports one. */
  predicate Saving(c: Command, given: Given, e: Entry) {
    e.saved == if c.SaveAt? || c.Open? then Some(given.revision) else None
  }

  function KindOf(c: Command): Kind {
    match c
    case StartWith(_) | Open(_) | View(_) => Start
    case EditAt(_, _) => Edit
    case UndoAt(_) => Undo
    case RedoAt(_) => Redo
    case SaveAt(_) => Save
    case SnapshotAt(_, _) => Snapshot
    case BranchAt(_, _, _) => Fork
  }

  ghost predicate Does(es: seq<Entry>, request: Request, given: Given, e: Entry) {
    && Content(es, request.command, given, e) && Place(es, request.command, given, e)
    && Stacking(es, request.command, given, e) && Saving(request.command, given, e)
    && Follows(es, request, given, e) && e.kind == KindOf(request.command)
  }

  lemma FoundIsNamed(es: seq<Entry>, id: Id)
    ensures Find(es, id) < |es| ==> Named(es, id, es[Find(es, id)])
  {
  }

  lemma ReversalDoes(check: Check, es: seq<Entry>, request: Request, given: Given, undo: bool)
    requires es != [] && (if undo then request.command.UndoAt? else request.command.RedoAt?)
    ensures var r := DispatchReversal(check, es, request, given, undo); r.Commit? ==> Does(es, request, given, r.entry)
  {
    var stack := if undo then Last(es).undo else Last(es).redo;
    if stack != [] { FoundIsNamed(es, Top(stack)); }
    hide Find;
  }

  lemma BranchDoes(check: Check, es: seq<Entry>, request: Request, given: Given)
    requires es != [] && request.command.BranchAt?
    ensures var r := DispatchAtHead(check, es, request, given); r.Commit? ==> Does(es, request, given, r.entry)
  {
    FoundIsNamed(es, request.command.origin);
    hide Find, Printable;
  }

  /** What a command publishes: its content, its branch, its stacks and its saved version. A branch
      has exactly its origin's content, a reversal that of the entry on top of its stack, an edit
      what the editing policy made of it. */
  lemma CommandDoes(check: Check, es: seq<Entry>, request: Request, given: Given)
    ensures var r := Dispatch(check, es, request, given); r.Commit? ==> Does(es, request, given, r.entry)
  {
    var c := request.command;
    if es != [] && !c.StartWith? && !c.Open? && !c.View? {
      if c.UndoAt? { ReversalDoes(check, es, request, given, true); }
      if c.RedoAt? { ReversalDoes(check, es, request, given, false); }
      if c.BranchAt? { BranchDoes(check, es, request, given); }
    }
    hide DispatchReversal, Find, Printable, FindRequest, StateAt;
  }

  /** On a reachable journal an identifier names one entry. */
  lemma NamedOnce(es: seq<Entry>, id: Id, a: Entry, b: Entry)
    requires Unique(es) && Named(es, id, a) && Named(es, id, b)
    ensures a == b
  {
  }

  // ---- What is accepted -----------------------------------------------------------------------

  /** A request whose identifier no entry carries, made at the head. */
  predicate Timely(es: seq<Entry>, request: Request)
    requires !request.command.StartWith? && !request.command.Open? && !request.command.View?
  {
    es != [] && request.command.head == Last(es).id && NewRequest(es, request)
  }

  predicate NewRequest(es: seq<Entry>, request: Request) {
    forall i :: 0 <= i < |es| ==> es[i].operation.id != request.id
  }

  /** The actor's own edit lies on top of the stack. */
  predicate OwnOnTop(es: seq<Entry>, stack: seq<Id>, actor: Id) {
    stack != [] && exists i :: 0 <= i < |es| && es[i].id == Top(stack) && es[i].operation.actor == actor
  }

  ghost predicate Acceptable(check: Check, es: seq<Entry>, request: Request, given: Given) {
    match request.command
    case StartWith(d) => es == [] && check(d)
    case Open(_) => es == [] && given.legacy.Some? && check(given.legacy.value)
    case View(_) => false
    case EditAt(_, _) =>
      && Timely(es, request) && given.edited.Success? && check(given.edited.value)
      && given.edited.value != Last(es).after.document
    case UndoAt(_) => Timely(es, request) && OwnOnTop(es, Last(es).undo, request.actor)
    case RedoAt(_) => Timely(es, request) && OwnOnTop(es, Last(es).redo, request.actor)
    case SaveAt(_) => Timely(es, request)
    case SnapshotAt(_, name) => Timely(es, request) && name != "" && Printable(name)
    case BranchAt(_, origin, name) =>
      Timely(es, request) && Printable(name) && exists i :: 0 <= i < |es| && es[i].id == origin
  }

  lemma NewIsNotFound(es: seq<Entry>, request: Request)
    ensures FindRequest(es, request.id) == |es| <==> NewRequest(es, request)
  {
  }

  lemma FoundIfThere(es: seq<Entry>, id: Id)
    ensures Find(es, id) < |es| <==> exists i :: 0 <= i < |es| && es[i].id == id
  {
  }

  /** On a reachable journal an own edit on top of a stack can always be taken back. */
  lemma ReversalAccepted(check: Check, draft: Id, es: seq<Entry>, request: Request, given: Given, undo: bool)
    requires Legal(check, draft, es) && es != []
    ensures DispatchReversal(check, es, request, given, undo).Commit? <==>
      OwnOnTop(es, if undo then Last(es).undo else Last(es).redo, request.actor)
  {
    LegalIsChained(check, draft, es);
    LegalIsStacked(check, draft, es);
    hide Legal;
    var stack := if undo then Last(es).undo else Last(es).redo;
    if stack != [] {
      var i := Find(es, Top(stack));
      assert i < |es|;
      forall k | 0 <= k < |es| && es[k].id == Top(stack) ensures k == i { UniqueAt(es, k, i); }
    }
  }

  lemma UniqueAt(es: seq<Entry>, i: nat, k: nat)
    requires Unique(es) && i < |es| && k < |es| && es[i].id == es[k].id
    ensures i == k
  {
  }

  lemma HeadAccepted(check: Check, draft: Id, es: seq<Entry>, request: Request, given: Given)
    requires !request.command.StartWith? && !request.command.Open? && !request.command.View?
    requires Legal(check, draft, es) && Timely(es, request)
    ensures DispatchAtHead(check, es, request, given).Commit? <==> Acceptable(check, es, request, given)
  {
    hide Legal, DispatchReversal, Find, Printable, NewRequest, OwnOnTop;
    var c := request.command;
    ContentIsChecked(check, draft, es);
    if c.UndoAt? { ReversalAccepted(check, draft, es, request, given, true); }
    if c.RedoAt? { ReversalAccepted(check, draft, es, request, given, false); }
    if c.BranchAt? { FoundIfThere(es, c.origin); }
  }

  lemma ContentIsChecked(check: Check, draft: Id, es: seq<Entry>)
    requires Legal(check, draft, es)
    ensures forall i :: 0 <= i < |es| ==> check(es[i].after.document)
    ensures es != [] ==> check(Last(es).after.document)
  {
    LegalIsChained(check, draft, es);
  }

  /** On a reachable journal a command publishes exactly when it is new, made at the head, and one
      that its own condition allows; what is in the journal always passes the document check. */
  lemma PublishesIffAcceptable(check: Check, draft: Id, es: seq<Entry>, request: Request, given: Given)
    requires Legal(check, draft, es)
    ensures Dispatch(check, es, request, given).Commit? <==> Acceptable(check, es, request, given)
  {
    var c := request.command;
    NewIsNotFound(es, request);
    hide Legal, FindRequest, NewRequest, DispatchAtHead, Find, Printable, OwnOnTop;
    if !c.StartWith? && !c.Open? && !c.View? && Timely(es, request) {
      HeadAccepted(check, draft, es, request, given);
    }
  }

  // ---- What is answered and refused -----------------------------------------------------------

  /** Viewing, and opening a draft that has a history, answers with the journal up to the entry that
      is named, or with all of it; an unknown entry is refused. */
  lemma ViewAnswers(check: Check, es: seq<Entry>, request: Request, given: Given)
    requires es != [] && (request.command.View? || request.command.Open?)
    ensures var r := Dispatch(check, es, request, given);
      match request.command.at
      case None => r == Answer(es)
      case Some(id) =>
        if exists i :: 0 <= i < |es| && es[i].id == id then
          r.Answer? && r.journal <= es && r.journal != [] && Last(r.journal).id == id
        else r == Reject(NoSuchEntry)
  {
    hide DispatchAtHead;
    if request.command.at.Some? {
      FoundIfThere(es, request.command.at.value);
      var i := Find(es, request.command.at.value);
      assert i < |es| ==> es[..i + 1][i] == es[i];
    }
  }

  /** Why a command that is not a start, an opening or a view is refused: there is no draft, its
      identifier was used by another request, it was not made at the head, and so on in this order. */
  lemma RefusedBecause(check: Check, draft: Id, es: seq<Entry>, request: Request, given: Given)
    requires Legal(check, draft, es)
    requires !request.command.StartWith? && !request.command.Open? && !request.command.View?
    ensures var r := Dispatch(check, es, request, given);
      var used := exists i :: 0 <= i < |es| && es[i].operation.id == request.id;
      var same := exists i :: 0 <= i < |es| && es[i].operation == request;
      && (r == Reject(NoSuchDraft) <==> es == [])
      && (r == Reject(RequestIdConflict) <==> used && !same)
      && (r == Reject(HistoryConflict) <==> es != [] && !used && request.command.head != Last(es).id)
      && (r == Reject(HistoryEmpty) <==>
            && Timely(es, request)
            && ((request.command.UndoAt? && Last(es).undo == []) || (request.command.RedoAt? && Last(es).redo == [])))
      && (r == Reject(EditRejected) <==> Timely(es, request) && request.command.EditAt? && given.edited.Failure?)
  {
    hide Find, FindRequest, Printable, Chained, Unique, Legal, DispatchAtHead;
    LegalIsChained(check, draft, es);
    NewIsNotFound(es, request);
    SameIsFound(es, request);
    if es != [] { HeadRefusals(check, es, request, given); }
  }

  lemma HeadRefusals(check: Check, es: seq<Entry>, request: Request, given: Given)
    requires es != [] && !request.command.StartWith? && !request.command.Open? && !request.command.View?
    ensures var r := DispatchAtHead(check, es, request, given);
      && r !in {Reject(NoSuchDraft), Reject(RequestIdConflict), Reject(HistoryConflict)}
      && (r == Reject(HistoryEmpty) <==>
            (request.command.UndoAt? && Last(es).undo == []) || (request.command.RedoAt? && Last(es).redo == []))
      && (r == Reject(EditRejected) <==> request.command.EditAt? && given.edited.Failure?)
  {
    hide Find, Printable;
  }

  lemma SameIsFound(es: seq<Entry>, request: Request)
    requires Unique(es)
    ensures var i := FindRequest(es, request.id);
      && (i < |es| && es[i].operation == request <==> exists k :: 0 <= k < |es| && es[k].operation == request)
      && (i < |es| ==> StateAt(es, Some(es[i].id)).Answer?)
  {
    var i := FindRequest(es, request.id);
    if i < |es| { FindsItself(es, i); }
    if k :| 0 <= k < |es| && es[k].operation == request { assert es[k].operation.id == request.id; }
  }

  /** Why a command at the head is refused or answered with the journal as it is: each reason exactly
      where it applies. */
  ghost predicate HeadReason(check: Check, es: seq<Entry>, request: Request, given: Given, r: Outcome)
    requires es != []
  {
    var c, head := request.command, Last(es);
    && (r == Reject(UndoAuthority) <==>
          || (c.UndoAt? && head.undo != [] && !OwnOnTop(es, head.undo, request.actor))
          || (c.RedoAt? && head.redo != [] && !OwnOnTop(es, head.redo, request.actor)))
    && (r == Reject(SnapshotName) <==> c.SnapshotAt? && (c.name == "" || !Printable(c.name)))
    && (r == Reject(BranchName) <==> c.BranchAt? && !Printable(c.name))
    && (r == Reject(NoSuchEntry) <==>
          c.BranchAt? && Printable(c.name) && !exists i :: 0 <= i < |es| && es[i].id == c.origin)
    && (r == Reject(InvalidDocument) <==>
          && c.EditAt? && given.edited.Success? && given.edited.value != head.after.document
          && !check(given.edited.value))
    && (r.Answer? <==> c.EditAt? && given.edited.Success? && given.edited.value == head.after.document)
    && (r.Answer? ==> r.journal == es)
  }

  /** Why a new command at the head is refused or answered. */
  lemma HeadRefusedBecause(check: Check, draft: Id, es: seq<Entry>, request: Request, given: Given)
    requires !request.command.StartWith? && !request.command.Open? && !request.command.View?
    requires Legal(check, draft, es) && Timely(es, request)
    ensures HeadReason(check, es, request, given, Dispatch(check, es, request, given))
  {
    hide Find, FindRequest, Legal, DispatchAtHead, NewRequest, HeadReason;
    NewIsNotFound(es, request);
    if request.command.UndoAt? || request.command.RedoAt? {
      ReversalReasons(check, draft, es, request, given, request.command.UndoAt?);
    } else {
      OtherReasons(check, draft, es, request, given);
    }
  }

  lemma OtherReasons(check: Check, draft: Id, es: seq<Entry>, request: Request, given: Given)
    requires !request.command.StartWith? && !request.command.Open? && !request.command.View?
    requires !request.command.UndoAt? && !request.command.RedoAt? && Legal(check, draft, es) && es != []
    ensures HeadReason(check, es, request, given, DispatchAtHead(check, es, request, given))
  {
    hide Legal, DispatchReversal, Find, Printable, OwnOnTop;
    ContentIsChecked(check, draft, es);
    if request.command.BranchAt? { FoundIfThere(es, request.command.origin); }
  }

  lemma ReversalReasons(check: Check, draft: Id, es: seq<Entry>, request: Request, given: Given, undo: bool)
    requires Legal(check, draft, es) && es != []
    requires if undo then request.command.UndoAt? else request.command.RedoAt?
    ensures HeadReason(check, es, request, given, DispatchAtHead(check, es, request, given))
  {
    ReversalAccepted(check, draft, es, request, given, undo);
    LegalIsChained(check, draft, es);
    LegalIsStacked(check, draft, es);
    ReversalFinds(check, es, request, given, undo);
    hide Legal, StacksSound, Chained, Unique;
  }

  /** A start on a draft that has a history is answered with the entry it published itself, if it
      did, and refused otherwise. */
  lemma StartAgain(check: Check, draft: Id, es: seq<Entry>, request: Request, given: Given)
    requires Legal(check, draft, es) && es != [] && request.command.StartWith? && check(request.command.document)
    ensures var r := Dispatch(check, es, request, given);
      if exists i :: 0 <= i < |es| && es[i].operation == request then
        r.Answer? && r.journal <= es && r.journal != [] && Last(r.journal).operation == request
      else r == Reject(HistoryExists)
  {
    LegalIsChained(check, draft, es);
    hide Legal;
    SameIsFound(es, request);
    var i := FindRequest(es, request.id);
    if i < |es| {
      FoundAtOwnPlace(es, i);
      assert es[..i + 1][i] == es[i];
    }
    hide FindRequest, Find, Unique, Chained;
  }
}
