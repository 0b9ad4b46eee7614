/** Durable editing history: the journal of a draft and the commands that extend it. */
module History {
  import opened Wrappers

  type Id = nat

  /** A document of a draft; its content is opaque to the history. */
  datatype Document = Document(draft: Id, content: nat)

  /** A content hash: injective by construction. */
  datatype Digest = DigestOf(document: Document)

  datatype Branch = Branch(id: Id, origin: Option<Id>)

  datatype Kind = Start | Edit | Undo | Redo | Save | Snapshot | Fork

  datatype Command =
    | StartWith(document: Document)
    | Open(at: Option<Id>)
    | View(at: Option<Id>)
    | EditAt(head: Id, edit: nat)
    | UndoAt(head: Id)
    | RedoAt(head: Id)
    | SaveAt(head: Id)
    | SnapshotAt(head: Id, name: string)
    | BranchAt(head: Id, origin: Id, name: string)

  datatype Request = Request(actor: Id, id: Id, draft: Id, command: Command)

  /** `saved` is the revision of the saved version the entry records, if it records one. */
  datatype Entry = Entry(
    id: Id,
    sequence: nat,
    parent: Option<Id>,
    branch: Branch,
    kind: Kind,
    before: Digest,
    after: Digest,
    operation: Request,
    reverses: Option<Id>,
    undo: seq<Id>,
    redo: seq<Id>,
    saved: Option<nat>)

  datatype Rejection =
    | NoSuchDraft | NoSuchEntry | HistoryExists | RequestIdConflict | HistoryConflict | HistoryEmpty
    | UndoAuthority | UndoConflict | SnapshotName | BranchName | EditRejected | InvalidDocument

  /** What a dispatch does: publish one entry, or answer with a prefix of the journal, or refuse. */
  datatype Outcome =
    | Commit(entry: Entry)
    | Answer(journal: seq<Entry>)
    | Reject(reason: Rejection)

  /** What the editing policy and the generators of identifiers give one dispatch: the edited
      document, the draft's own saved document, the revision a save returns, fresh identifiers. */
  datatype Given = Given(
    edited: Result<Document, ()>,
    legacy: Option<Document>,
    revision: nat,
    entry: Id,
    branch: Id)

  /** The document check of the editing policy. */
  type Check = Document -> bool

  // ---- Looking things up ----------------------------------------------------------------------

  function Last(es: seq<Entry>): Entry
    requires es != []
  {
    es[|es| - 1]
  }

  /** The place of the entry with an identifier, or the end. */
  function Find(es: seq<Entry>, id: Id): (i: nat)
    ensures i <= |es| && (i < |es| ==> es[i].id == id)
    ensures forall k :: 0 <= k < i ==> es[k].id != id
  {
    if es == [] || es[0].id == id then 0 else Find(es[1..], id) + 1
  }

  function FindRequest(es: seq<Entry>, id: Id): (i: nat)
    ensures i <= |es| && (i < |es| ==> es[i].operation.id == id)
    ensures forall k :: 0 <= k < i ==> es[k].operation.id != id
  {
    if es == [] || es[0].operation.id == id then 0 else FindRequest(es[1..], id) + 1
  }

  /** The state at an entry, or at the head when none is named. */
  function StateAt(es: seq<Entry>, at: Option<Id>): Outcome {
    match at
    case None => if es == [] then Reject(NoSuchDraft) else Answer(es)
    case Some(id) => var i := Find(es, id); if i == |es| then Reject(NoSuchEntry) else Answer(es[..i + 1])
  }

  predicate Printable(name: string) {
    |name| <= 120 && forall i :: 0 <= i < |name| ==> name[i] as int >= 32
  }

  /** Unsaved changes: no version saved on the head's branch has the head's content. */
  predicate Dirty(es: seq<Entry>)
    requires es != []
  {
    !exists i :: 0 <= i < |es| && es[i].saved.Some? && es[i].after == Last(es).after
      && es[i].branch.id == Last(es).branch.id
  }

  // ---- Commands -------------------------------------------------------------------------------

  /** The entry comes right after the journal, carries the request, and starts from the head's
      content. */
  predicate Follows(es: seq<Entry>, request: Request, given: Given, e: Entry) {
    && e.id == given.entry && e.operation == request
    && e.sequence == |es| + 1 && e.parent == (if es == [] then None else Some(Last(es).id))
    && e.before == (if es == [] then e.after else Last(es).after)
  }

  /** The entry a commit publishes. */
  function Committed(es: seq<Entry>, request: Request, given: Given, document: Document, kind: Kind,
      undo: seq<Id>, redo: seq<Id>, fork: bool, origin: Option<Id>, reverses: Option<Id>, saved: Option<nat>)
    : (e: Entry)
    ensures Follows(es, request, given, e)
  {
    var digest := DigestOf(document);
    Entry(given.entry, |es| + 1, if es == [] then None else Some(Last(es).id),
      if es != [] && !fork then Last(es).branch
      else Branch(given.branch, if origin.Some? then origin else if es == [] then None else Some(Last(es).id)),
      kind, if es == [] then digest else Last(es).after, digest, request, reverses, undo, redo, saved)
  }

  function CommitChecked(check: Check, e: Entry): Outcome {
    if check(e.after.document) then Commit(e) else Reject(InvalidDocument)
  }

  function DispatchStart(check: Check, es: seq<Entry>, request: Request, given: Given): (r: Outcome)
    requires request.command.StartWith?
    ensures r.Commit? ==> Follows(es, request, given, r.entry) && check(r.entry.after.document)
  {
    var document := request.command.document;
    if !check(document) then Reject(InvalidDocument)
    else if es != [] then
      var i := FindRequest(es, request.id);
      if i < |es| && es[i].operation == request then StateAt(es, Some(es[i].id)) else Reject(HistoryExists)
    else CommitChecked(check, Committed(es, request, given, document, Start, [], [], false, None, None, None))
  }

  /** One command on a journal. */
  function Dispatch(check: Check, es: seq<Entry>, request: Request, given: Given): (r: Outcome)
    ensures r.Commit? ==> Follows(es, request, given, r.entry) && check(r.entry.after.document)
    ensures r.Commit? ==> FindRequest(es, request.id) == |es|
  {
    var c := request.command;
    if c.StartWith? then DispatchStart(check, es, request, given)
    else if es == [] then
      if c.Open? then
        match given.legacy
        case None => Reject(NoSuchDraft)
        case Some(d) =>
          CommitChecked(check, Committed(es, request, given, d, Start, [], [], false, None, None, Some(given.revision)))
      else Reject(NoSuchDraft)
    else if c.Open? || c.View? then StateAt(es, c.at)
    else
      var i := FindRequest(es, request.id);
      if i < |es| then
        if es[i].operation == request then StateAt(es, Some(es[i].id)) else Reject(RequestIdConflict)
      else if c.head != Last(es).id then Reject(HistoryConflict)
      else DispatchAtHead(check, es, request, given)
  }

  function DispatchAtHead(check: Check, es: seq<Entry>, request: Request, given: Given): (r: Outcome)
    requires es != [] && !request.command.StartWith? && !request.command.Open? && !request.command.View?
    ensures r.Commit? ==> Follows(es, request, given, r.entry) && check(r.entry.after.document)
  {
    var head := Last(es);
    match request.command
    case EditAt(_, _) =>
      (match given.edited
       case Failure(_) => Reject(EditRejected)
       case Success(d) =>
         if DigestOf(d) == head.after then Answer(es)
         else
           CommitChecked(check, Committed(es, request, given, d, Edit, head.undo + [given.entry], [],
             head.redo != [], None, None, None)))
    case UndoAt(_) => DispatchReversal(check, es, request, given, true)
    case RedoAt(_) => DispatchReversal(check, es, request, given, false)
    case SaveAt(_) =>
      CommitChecked(check, Committed(es, request, given, head.after.document, Save, head.undo, head.redo,
        false, None, None, Some(given.revision)))
    case SnapshotAt(_, name) =>
      if name == "" || !Printable(name) then Reject(SnapshotName)
      else
        CommitChecked(check, Committed(es, request, given, head.after.document, Snapshot, head.undo, head.redo,
          false, None, None, None))
    case BranchAt(_, origin, name) =>
      if !Printable(name) then Reject(BranchName)
      else
        var i := Find(es, origin);
        if i == |es| then Reject(NoSuchEntry)
        else
          CommitChecked(check, Committed(es, request, given, es[i].after.document, Fork, [], [],
            true, Some(es[i].id), None, None))
    case _ => Reject(NoSuchEntry)
  }

  function DispatchReversal(check: Check, es: seq<Entry>, request: Request, given: Given, undo: bool): (r: Outcome)
    requires es != []
    ensures r.Commit? ==> Follows(es, request, given, r.entry) && check(r.entry.after.document)
  {
    var head := Last(es);
    var stack := if undo then head.undo else head.redo;
    if stack == [] then Reject(HistoryEmpty)
    else
      var i := Find(es, stack[|stack| - 1]);
      if i == |es| then Reject(NoSuchEntry)
      else
        var original := es[i];
        if original.operation.actor != request.actor then Reject(UndoAuthority)
        else if head.after != (if undo then original.after else original.before) then Reject(UndoConflict)
        else
          var restored := if undo then original.before else original.after;
          CommitChecked(check, Committed(es, request, given, restored.document, if undo then Undo else Redo,
            if undo then head.undo[..|head.undo| - 1] else head.undo + [original.id],
            if undo then head.redo + [original.id] else head.redo[..|head.redo| - 1],
            false, None, Some(original.id), None))
  }

  // ---- Legal journals -------------------------------------------------------------------------

  /** What the environment promises one dispatch: identifiers are fresh, and the editing policy
      and the draft store hand back documents of the draft. */
  predicate Proper(es: seq<Entry>, request: Request, given: Given) {
    && (forall i :: 0 <= i < |es| ==> es[i].id != given.entry && es[i].branch.id != given.branch)
    && (given.edited.Success? ==> given.edited.value.draft == request.draft)
    && (given.legacy.Some? ==> given.legacy.value.draft == request.draft)
    && (request.command.StartWith? ==> request.command.document.draft == request.draft)
  }

  /** The last entry is what some dispatch published on the journal before it. */
  ghost predicate Published(check: Check, draft: Id, es: seq<Entry>, e: Entry) {
    exists given :: && e.operation.draft == draft && Proper(es, e.operation, given)
                    && Dispatch(check, es, e.operation, given) == Commit(e)
  }

  /** Every entry is what a command dispatched on the journal before it publishes. */
  ghost predicate Legal(check: Check, draft: Id, es: seq<Entry>) {
    forall i :: 0 <= i < |es| ==> Published(check, draft, es[..i], es[i])
  }

  lemma LegalPrefix(check: Check, draft: Id, es: seq<Entry>, n: nat)
    requires Legal(check, draft, es) && n <= |es|
    ensures Legal(check, draft, es[..n])
  {
    forall i | 0 <= i < n ensures Published(check, draft, es[..n][..i], es[..n][i]) {
      assert es[..n][..i] == es[..i];
    }
  }

  lemma LegalExtends(check: Check, draft: Id, es: seq<Entry>, e: Entry)
    requires Legal(check, draft, es) && Published(check, draft, es, e)
    ensures Legal(check, draft, es + [e])
  {
    forall i | 0 <= i < |es + [e]| ensures Published(check, draft, (es + [e])[..i], (es + [e])[i]) {
      assert (es + [e])[..i] == es[..i];
      assert es[..|es|] == es;
    }
  }

  /** The loop of the repository that accepts a journal: a gapless numbering, each entry's parent
      the entry before it, each before-hash the after-hash before it. */
  predicate Chained(es: seq<Entry>) {
    forall i :: 0 <= i < |es| ==> LinkedAt(es, i)
  }

  predicate LinkedAt(es: seq<Entry>, i: nat)
    requires i < |es|
  {
    && es[i].sequence == i + 1
    && es[i].parent == (if i == 0 then None else Some(es[i - 1].id))
    && (i > 0 ==> es[i].before == es[i - 1].after)
  }

  /** Identifiers and request identifiers occur once. */
  predicate Unique(es: seq<Entry>) {
    forall i, j :: 0 <= i < j < |es| ==> es[i].id != es[j].id && es[i].operation.id != es[j].operation.id
  }

  /** What one published entry looks like, whatever the command. */
  lemma PublishedShape(check: Check, draft: Id, es: seq<Entry>, e: Entry)
    requires Published(check, draft, es, e)
    ensures e.sequence == |es| + 1 && e.parent == (if es == [] then None else Some(Last(es).id))
    ensures es != [] ==> e.before == Last(es).after
    ensures es == [] ==> e.before == e.after
    ensures check(e.after.document)
    ensures forall i :: 0 <= i < |es| ==> es[i].id != e.id && es[i].operation.id != e.operation.id
  {
    hide Dispatch;
  }

  lemma LegalIsChained(check: Check, draft: Id, es: seq<Entry>)
    requires Legal(check, draft, es)
    ensures Chained(es) && Unique(es)
    ensures forall i :: 0 <= i < |es| ==> check(es[i].after.document) && check(es[i].before.document)
  {
    forall i | 0 <= i < |es|
      ensures LinkedAt(es, i) && (i == 0 ==> es[i].before == es[i].after) && check(es[i].after.document)
    {
      PublishedShape(check, draft, es[..i], es[i]);
    }
    forall i | 0 <= i < |es| ensures check(es[i].before.document) {
      assert LinkedAt(es, i);
      if i > 0 { assert check(es[i - 1].after.document); }
    }
    forall i, j | 0 <= i < j < |es| ensures es[i].id != es[j].id && es[i].operation.id != es[j].operation.id {
      PublishedShape(check, draft, es[..j], es[j]);
      assert es[..j][i] == es[i];
    }
  }

  /** Every content of the journal is a document of its draft. */
  predicate InDraft(draft: Id, es: seq<Entry>) {
    forall i :: 0 <= i < |es| ==> es[i].after.document.draft == draft && es[i].before.document.draft == draft
  }

  lemma ReversalInDraft(check: Check, draft: Id, es: seq<Entry>, request: Request, given: Given, undo: bool)
    requires es != [] && InDraft(draft, es)
    ensures var r := DispatchReversal(check, es, request, given, undo);
      r.Commit? ==> r.entry.after.document.draft == draft
  {
  }

  lemma DispatchInDraft(check: Check, draft: Id, es: seq<Entry>, request: Request, given: Given)
    requires InDraft(draft, es) && request.draft == draft && Proper(es, request, given)
    ensures var r := Dispatch(check, es, request, given); r.Commit? ==> r.entry.after.document.draft == draft
  {
    if es != [] {
      ReversalInDraft(check, draft, es, request, given, true);
      ReversalInDraft(check, draft, es, request, given, false);
    }
    hide DispatchReversal;
  }

  lemma DispatchBranch(check: Check, es: seq<Entry>, request: Request, given: Given)
    ensures var r := Dispatch(check, es, request, given);
      r.Commit? ==> (es != [] && r.entry.branch == Last(es).branch) || r.entry.branch.id == given.branch
  {
  }

  lemma {:induction false} LegalInDraft(check: Check, draft: Id, es: seq<Entry>)
    requires Legal(check, draft, es)
    ensures InDraft(draft, es)
    decreases |es|
  {
    hide Dispatch, Proper, Published;
    if es != [] {
      var n := |es| - 1;
      LegalPrefix(check, draft, es, n);
      LegalInDraft(check, draft, es[..n]);
      assert Published(check, draft, es[..n], es[n]);
      PublishedShape(check, draft, es[..n], es[n]);
      PublishedInDraft(check, draft, es[..n], es[n]);
      assert forall i :: 0 <= i < n ==> es[i] == es[..n][i];
    }
  }

  lemma PublishedInDraft(check: Check, draft: Id, es: seq<Entry>, e: Entry)
    requires InDraft(draft, es) && Published(check, draft, es, e)
    ensures e.after.document.draft == draft
  {
    hide Dispatch, Proper;
    var given :| && e.operation.draft == draft && Proper(es, e.operation, given)
                 && Dispatch(check, es, e.operation, given) == Commit(e);
    DispatchInDraft(check, draft, es, e.operation, given);
  }

  // ---- The undo and redo stacks ---------------------------------------------------------------

  /** The undo entries, read down the stack, lead from `tip` after-hash by before-hash. */
  predicate UndoChain(es: seq<Entry>, ids: seq<Id>, tip: Digest)
    decreases |ids|
  {
    ids == [] ||
    var i := Find(es, ids[|ids| - 1]);
    i < |es| && es[i].kind == Edit && es[i].after == tip && UndoChain(es, ids[..|ids| - 1], es[i].before)
  }

  /** The redo entries, read down the stack, lead from `tip` before-hash by after-hash. */
  predicate RedoChain(es: seq<Entry>, ids: seq<Id>, tip: Digest)
    decreases |ids|
  {
    ids == [] ||
    var i := Find(es, ids[|ids| - 1]);
    i < |es| && es[i].kind == Edit && es[i].before == tip && RedoChain(es, ids[..|ids| - 1], es[i].after)
  }

  predicate StacksSound(es: seq<Entry>) {
    es == [] || (UndoChain(es, Last(es).undo, Last(es).after) && RedoChain(es, Last(es).redo, Last(es).after))
  }

  lemma {:induction false} FindExtends(es: seq<Entry>, e: Entry, id: Id)
    ensures Find(es + [e], id) ==
      if Find(es, id) < |es| then Find(es, id) else if e.id == id then |es| else |es| + 1
    decreases |es|
  {
    if es != [] {
      FindExtends(es[1..], e, id);
      assert (es + [e])[1..] == es[1..] + [e];
    }
  }

  lemma {:induction false} ChainsExtend(es: seq<Entry>, e: Entry, ids: seq<Id>, tip: Digest)
    ensures UndoChain(es, ids, tip) ==> UndoChain(es + [e], ids, tip)
    ensures RedoChain(es, ids, tip) ==> RedoChain(es + [e], ids, tip)
    decreases |ids|
  {
    if ids != [] {
      var top := ids[|ids| - 1];
      FindExtends(es, e, top);
      var i := Find(es, top);
      if i < |es| {
        assert (es + [e])[i] == es[i];
        ChainsExtend(es, e, ids[..|ids| - 1], es[i].before);
        ChainsExtend(es, e, ids[..|ids| - 1], es[i].after);
      }
    }
  }

  /** The entry which a reversal takes back, and how it moves the stacks. */
  predicate Reverses(es: seq<Entry>, e: Entry, undo: bool)
    requires es != []
  {
    var head := Last(es);
    var stack := if undo then head.undo else head.redo;
    stack != [] &&
    var i := Find(es, stack[|stack| - 1]);
    && i < |es| && es[i].operation.actor == e.operation.actor && e.branch == head.branch
    && e.reverses == Some(es[i].id)
    && (if undo then
          head.after == es[i].after && e.after == es[i].before
          && e.undo == head.undo[..|head.undo| - 1] && e.redo == head.redo + [es[i].id]
        else
          head.after == es[i].before && e.after == es[i].after
          && e.undo == head.undo + [es[i].id] && e.redo == head.redo[..|head.redo| - 1])
  }

  /** How an entry moves the head's stacks. */
  predicate Moves(es: seq<Entry>, e: Entry) {
    match e.kind
    case Start => es == [] && e.undo == [] && e.redo == []
    case Edit => es != [] && e.undo == Last(es).undo + [e.id] && e.redo == [] && e.after != e.before
      && (Last(es).redo == [] ==> e.branch == Last(es).branch)
    case Undo => es != [] && Reverses(es, e, true)
    case Redo => es != [] && Reverses(es, e, false)
    case Save | Snapshot => es != [] && e.after == Last(es).after && e.undo == Last(es).undo && e.redo == Last(es).redo
      && e.branch == Last(es).branch && (e.kind == Save ==> e.saved.Some?)
    case Fork => es != [] && e.undo == [] && e.redo == [] && exists i :: 0 <= i < |es| && es[i].after == e.after
  }

  lemma ReversalMoves(check: Check, es: seq<Entry>, request: Request, given: Given, undo: bool)
    requires es != []
    ensures var r := DispatchReversal(check, es, request, given, undo);
      r.Commit? ==> r.entry.kind == (if undo then Undo else Redo) && Reverses(es, r.entry, undo)
  {
  }

  lemma DispatchMoves(check: Check, es: seq<Entry>, request: Request, given: Given)
    ensures var r := Dispatch(check, es, request, given); r.Commit? ==> Moves(es, r.entry)
  {
    hide CommitChecked;
    if es != [] {
      ReversalMoves(check, es, request, given, true);
      ReversalMoves(check, es, request, given, false);
    }
    hide DispatchReversal, Reverses;
    CommitCheckedCommits(check);
  }

  lemma CommitCheckedCommits(check: Check)
    ensures forall e :: CommitChecked(check, e).Commit? ==> CommitChecked(check, e).entry == e
  {
  }

  /** Every entry keeps both stacks chained to the head's content. */
  lemma MoveKeepsStacks(es: seq<Entry>, e: Entry)
    requires StacksSound(es) && Moves(es, e)
    requires es != [] ==> e.before == Last(es).after
    requires forall i :: 0 <= i < |es| ==> es[i].id != e.id
    ensures StacksSound(es + [e])
  {
    ChainsExtend(es, e, e.undo, e.after);
    ChainsExtend(es, e, e.redo, e.after);
    match e.kind
    case Edit =>
      FindExtends(es, e, e.id);
      ChainsExtend(es, e, Last(es).undo, e.before);
      assert e.undo[..|e.undo| - 1] == Last(es).undo;
    case Undo => UndoKeepsStacks(es, e);
    case Redo => RedoKeepsStacks(es, e);
    case _ =>
  }

  lemma UndoKeepsStacks(es: seq<Entry>, e: Entry)
    requires StacksSound(es) && es != [] && Reverses(es, e, true)
    ensures StacksSound(es + [e])
  {
    var head := Last(es);
    var i := Find(es, head.undo[|head.undo| - 1]);
    assert UndoChain(es, e.undo, e.after);
    hide Find, UndoChain;
    assert e.redo[..|e.redo| - 1] == head.redo && e.redo[|e.redo| - 1] == es[i].id;
    assert RedoChain(es, e.redo, e.after);
    ChainsExtend(es, e, e.undo, e.after);
    ChainsExtend(es, e, e.redo, e.after);
  }

  lemma RedoKeepsStacks(es: seq<Entry>, e: Entry)
    requires StacksSound(es) && es != [] && Reverses(es, e, false)
    ensures StacksSound(es + [e])
  {
    var head := Last(es);
    var i := Find(es, head.redo[|head.redo| - 1]);
    assert RedoChain(es, e.redo, e.after);
    hide Find, RedoChain;
    assert e.undo[..|e.undo| - 1] == head.undo && e.undo[|e.undo| - 1] == es[i].id;
    assert UndoChain(es, e.undo, e.after);
    ChainsExtend(es, e, e.undo, e.after);
    ChainsExtend(es, e, e.redo, e.after);
  }

  lemma NothingIsStacked()
    ensures StacksSound([])
  {
  }

  lemma {:induction false} LegalIsStacked(check: Check, draft: Id, es: seq<Entry>)
    requires Legal(check, draft, es)
    ensures StacksSound(es)
    decreases |es|
  {
    hide StacksSound, Published;
    NothingIsStacked();
    if es != [] {
      var n := |es| - 1;
      assert Published(check, draft, es[..n], es[n]);
      LegalPrefix(check, draft, es, n);
      LegalIsStacked(check, draft, es[..n]);
      PublishedKeepsStacks(check, draft, es[..n], es[n]);
      assert es[..n] + [es[n]] == es;
    }
  }

  lemma PublishedKeepsStacks(check: Check, draft: Id, es: seq<Entry>, e: Entry)
    requires StacksSound(es) && Published(check, draft, es, e)
    ensures StacksSound(es + [e])
  {
    hide Published, Moves, StacksSound;
    PublishedMoves(check, draft, es, e);
    PublishedShape(check, draft, es, e);
    MoveKeepsStacks(es, e);
  }

  lemma PublishedMoves(check: Check, draft: Id, es: seq<Entry>, e: Entry)
    requires Published(check, draft, es, e)
    ensures Moves(es, e)
  {
    hide Dispatch, Moves, Proper;
    var given :| && e.operation.draft == draft && Proper(es, e.operation, given)
                 && Dispatch(check, es, e.operation, given) == Commit(e);
    DispatchMoves(check, es, e.operation, given);
  }

  lemma ReversalFinds(check: Check, es: seq<Entry>, request: Request, given: Given, undo: bool)
    requires es != [] && StacksSound(es)
    ensures DispatchReversal(check, es, request, given, undo) !in {Reject(UndoConflict), Reject(NoSuchEntry)}
  {
  }

  lemma HeadNeverConflicts(check: Check, es: seq<Entry>, request: Request, given: Given)
    requires es != [] && StacksSound(es)
    requires !request.command.StartWith? && !request.command.Open? && !request.command.View?
    ensures DispatchAtHead(check, es, request, given) != Reject(UndoConflict)
    ensures request.command.UndoAt? || request.command.RedoAt? ==>
      DispatchAtHead(check, es, request, given) != Reject(NoSuchEntry)
  {
    ReversalFinds(check, es, request, given, true);
    ReversalFinds(check, es, request, given, false);
    hide DispatchReversal, StacksSound, Committed, Find;
  }

  /** On no reachable journal is a reversal refused because of later changes, or its original
      missing. */
  lemma ReversalNeverConflicts(check: Check, draft: Id, es: seq<Entry>, request: Request, given: Given)
    requires Legal(check, draft, es)
    ensures Dispatch(check, es, request, given) != Reject(UndoConflict)
    ensures request.command.UndoAt? || request.command.RedoAt? ==>
      Dispatch(check, es, request, given) != Reject(NoSuchEntry)
  {
    LegalIsStacked(check, draft, es);
    hide DispatchAtHead, StacksSound, Legal, Committed;
    var c := request.command;
    if es != [] && !c.StartWith? && !c.Open? && !c.View? {
      HeadNeverConflicts(check, es, request, given);
      if FindRequest(es, request.id) < |es| {
        FindsItself(es, FindRequest(es, request.id));
      }
    }
  }

  /** An entry of the journal is found by its identifier. */
  lemma FindsItself(es: seq<Entry>, i: nat)
    requires i < |es|
    ensures Find(es, es[i].id) < |es| && StateAt(es, Some(es[i].id)).Answer?
  {
  }
}
