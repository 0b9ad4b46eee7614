/** Runs of history commands: undo against redo, edit against undo, replays, and the dirty flag. */
module HistoryRuns {
  import opened Wrappers
  import opened History

  // ---- Replays and saves ----------------------------------------------------------------------

  lemma FoundAtOwnPlace(es: seq<Entry>, i: nat)
    requires Unique(es) && i < |es|
    ensures Find(es, es[i].id) == i && FindRequest(es, es[i].operation.id) == i
  {
    var k, m := Find(es, es[i].id), FindRequest(es, es[i].operation.id);
    assert k <= i && m <= i;
  }

  lemma DispatchFinds(check: Check, es: seq<Entry>, i: nat, given: Given)
    requires i < |es| && Find(es, es[i].id) == i && FindRequest(es, es[i].operation.id) == i
    requires var c := es[i].operation.command; !c.View? && (c.StartWith? ==> check(c.document))
    ensures var q := es[i].operation;
      Dispatch(check, es, q, given) == if q.command.Open? then StateAt(es, q.command.at) else Answer(es[..i + 1])
  {
    hide Find, FindRequest, DispatchAtHead;
  }

  /** Replaying a committed request publishes nothing. It answers with the state at the entry it
      published, except that an opening which imported the draft answers as an opening: with the
      head, or with the entry it names. */
  lemma ReplayAnswersOwnEntry(check: Check, draft: Id, es: seq<Entry>, i: nat, given: Given)
    requires Legal(check, draft, es) && i < |es|
    ensures var q := es[i].operation;
      var r := Dispatch(check, es, q, given);
      && !r.Commit?
      && (r == Answer(es[..i + 1]) <==>
            (q.command.Open? ==>
               q.command.at == Some(es[i].id) || (q.command.at == None && i == |es| - 1)))
  {
    LegalIsChained(check, draft, es);
    FoundAtOwnPlace(es, i);
    PublishedNeverViews(check, draft, es[..i], es[i]);
    DispatchFinds(check, es, i, given);
    hide Legal, Published, Dispatch, Chained, Unique, Find, FindRequest;
    assert es[..|es|] == es && (i < |es| - 1 ==> |es[..i + 1]| < |es|);
    var at := es[i].operation.command;
    if at.Open? && at.at.Some? {
      var k := Find(es, at.at.value);
      assert k < |es| ==> |es[..k + 1]| == k + 1 && es[k].id == at.at.value;
    }
  }

  /** Viewing publishes nothing; a start publishes its own, checked document. */
  lemma PublishedNeverViews(check: Check, draft: Id, es: seq<Entry>, e: Entry)
    requires Published(check, draft, es, e)
    ensures !e.operation.command.View?
    ensures e.operation.command.StartWith? ==> check(e.operation.command.document)
  {
    var given :| Dispatch(check, es, e.operation, given) == Commit(e);
    hide DispatchAtHead;
  }

  /** Saving leaves nothing unsaved. */
  lemma SaveCleans(check: Check, draft: Id, es: seq<Entry>, e: Entry)
    requires Published(check, draft, es, e) && e.saved.Some?
    ensures !Dirty(es + [e])
  {
    assert (es + [e])[|es|] == e;
  }

  // ---- Runs of one actor's commands at the head -----------------------------------------------

  datatype Action = Alter(edit: nat) | TakeBack | PutBack

  /** One command at the head with its request identifier and what the environment gives it. */
  datatype Move = Move(action: Action, request: Id, given: Given)

  function RequestAt(es: seq<Entry>, actor: Id, draft: Id, m: Move): Request
    requires es != []
  {
    Request(actor, m.request, draft,
      match m.action
      case Alter(edit) => EditAt(Last(es).id, edit)
      case TakeBack => UndoAt(Last(es).id)
      case PutBack => RedoAt(Last(es).id))
  }

  /** The journal after the commands, if each of them publishes an entry. */
  function Applied(check: Check, draft: Id, actor: Id, es: seq<Entry>, ms: seq<Move>): Option<seq<Entry>>
    requires es != []
    decreases |ms|
  {
    if ms == [] then Some(es)
    else
      match Dispatch(check, es, RequestAt(es, actor, draft, ms[0]), ms[0].given)
      case Commit(e) => Applied(check, draft, actor, es + [e], ms[1..])
      case _ => None
  }

  predicate FreshMove(draft: Id, es: seq<Entry>, m: Move) {
    && (forall i :: 0 <= i < |es| ==>
          es[i].id != m.given.entry && es[i].operation.id != m.request && es[i].branch.id != m.given.branch)
    && m.given.legacy == None
    && (m.given.edited.Success? ==> m.given.edited.value.draft == draft)
  }

  /** New identifiers throughout. */
  predicate Fresh(draft: Id, es: seq<Entry>, ms: seq<Move>) {
    && (forall i :: 0 <= i < |ms| ==> FreshMove(draft, es, ms[i]))
    && (forall i, j :: 0 <= i < j < |ms| ==>
          ms[i].request != ms[j].request && ms[i].given.entry != ms[j].given.entry
          && ms[i].given.branch != ms[j].given.branch)
  }

  /** One command: what it publishes carries its request and is legal. */
  lemma MovePublishes(check: Check, draft: Id, actor: Id, es: seq<Entry>, m: Move, e: Entry)
    requires es != [] && FreshMove(draft, es, m) && Legal(check, draft, es)
    requires Dispatch(check, es, RequestAt(es, actor, draft, m), m.given) == Commit(e)
    ensures Published(check, draft, es, e) && Legal(check, draft, es + [e]) && History.Moves(es, e)
    ensures e.operation == RequestAt(es, actor, draft, m) && e.id == m.given.entry
  {
    hide Dispatch, Legal, Moves;
    assert Proper(es, e.operation, m.given);
    LegalExtends(check, draft, es, e);
    DispatchMoves(check, es, e.operation, m.given);
  }

  /** A published entry takes over the head's branch or starts the given one. */
  lemma FreshAfter(check: Check, draft: Id, actor: Id, es: seq<Entry>, ms: seq<Move>, e: Entry)
    requires es != [] && ms != [] && Fresh(draft, es, ms)
    requires Dispatch(check, es, RequestAt(es, actor, draft, ms[0]), ms[0].given) == Commit(e)
    ensures Fresh(draft, es + [e], ms[1..])
  {
    BranchOf(check, draft, actor, es, ms[0], e);
    hide Dispatch;
    forall i | 0 <= i < |ms[1..]| ensures FreshMove(draft, es + [e], ms[1..][i]) {
      assert ms[1..][i] == ms[i + 1] && FreshMove(draft, es, ms[i + 1]);
    }
  }

  lemma BranchOf(check: Check, draft: Id, actor: Id, es: seq<Entry>, m: Move, e: Entry)
    requires es != []
    requires Dispatch(check, es, RequestAt(es, actor, draft, m), m.given) == Commit(e)
    ensures e.branch == Last(es).branch || e.branch.id == m.given.branch
  {
  }

  lemma {:induction false} AppliedIsLegal(check: Check, draft: Id, actor: Id, es: seq<Entry>, ms: seq<Move>)
    requires es != [] && Fresh(draft, es, ms) && Legal(check, draft, es)
    requires Applied(check, draft, actor, es, ms).Some?
    ensures var t := Applied(check, draft, actor, es, ms).value;
      es <= t && |t| == |es| + |ms| && Legal(check, draft, t)
    decreases |ms|
  {
    if ms != [] {
      var e := Dispatch(check, es, RequestAt(es, actor, draft, ms[0]), ms[0].given).entry;
      MovePublishes(check, draft, actor, es, ms[0], e);
      FreshAfter(check, draft, actor, es, ms, e);
      AppliedIsLegal(check, draft, actor, es + [e], ms[1..]);
    }
  }

  lemma {:induction false} AppliedAppend(check: Check, draft: Id, actor: Id, es: seq<Entry>, ms: seq<Move>,
      ns: seq<Move>)
    requires es != []
    ensures Applied(check, draft, actor, es, ms + ns) ==
      match Applied(check, draft, actor, es, ms)
      case None => None
      case Some(t) => if t == [] then None else Applied(check, draft, actor, t, ns)
    decreases |ms|
  {
    hide Dispatch;
    if ms == [] {
      assert ms + ns == ns;
    } else {
      assert (ms + ns)[0] == ms[0] && (ms + ns)[1..] == ms[1..] + ns;
      match Dispatch(check, es, RequestAt(es, actor, draft, ms[0]), ms[0].given)
      case Commit(e) => AppliedAppend(check, draft, actor, es + [e], ms[1..], ns);
      case _ =>
    }
  }

  lemma {:induction false} FreshAfterAll(check: Check, draft: Id, actor: Id, es: seq<Entry>, ms: seq<Move>,
      ns: seq<Move>)
    requires es != [] && Fresh(draft, es, ms + ns) && Applied(check, draft, actor, es, ms).Some?
    ensures Applied(check, draft, actor, es, ms).value != []
    ensures Fresh(draft, Applied(check, draft, actor, es, ms).value, ns)
    decreases |ms|
  {
    hide Dispatch;
    if ms == [] {
      assert ms + ns == ns;
    } else {
      var e := Dispatch(check, es, RequestAt(es, actor, draft, ms[0]), ms[0].given).entry;
      assert (ms + ns)[0] == ms[0];
      FreshAfter(check, draft, actor, es, ms + ns, e);
      assert (ms + ns)[1..] == ms[1..] + ns;
      FreshAfterAll(check, draft, actor, es + [e], ms[1..], ns);
    }
  }

  lemma FreshPrefix(draft: Id, es: seq<Entry>, ms: seq<Move>, ns: seq<Move>)
    requires Fresh(draft, es, ms + ns)
    ensures Fresh(draft, es, ms)
  {
    forall i | 0 <= i < |ms| ensures FreshMove(draft, es, ms[i]) { assert (ms + ns)[i] == ms[i]; }
    forall i, j | 0 <= i < j < |ms|
      ensures ms[i].request != ms[j].request && ms[i].given.entry != ms[j].given.entry
        && ms[i].given.branch != ms[j].given.branch
    {
      assert (ms + ns)[i] == ms[i] && (ms + ns)[j] == ms[j];
    }
  }

  lemma {:induction false} FindInPrefix(es: seq<Entry>, t: seq<Entry>, id: Id)
    requires es <= t && Find(es, id) < |es|
    ensures Find(t, id) == Find(es, id)
    decreases |es|
  {
    if es[0].id != id { FindInPrefix(es[1..], t[1..], id); }
  }

  // ---- Undo against redo ----------------------------------------------------------------------

  function Stack(es: seq<Entry>, undo: bool): seq<Id>
    requires es != []
  {
    if undo then Last(es).undo else Last(es).redo
  }

  /** A fresh undo or redo at the head reaches the reversal. */
  lemma DispatchIsReversal(check: Check, draft: Id, actor: Id, es: seq<Entry>, m: Move, undo: bool)
    requires es != [] && FreshMove(draft, es, m) && m.action == (if undo then TakeBack else PutBack)
    ensures var q := RequestAt(es, actor, draft, m);
      Dispatch(check, es, q, m.given) == DispatchReversal(check, es, q, m.given, undo)
  {
    hide DispatchReversal;
    assert FindRequest(es, m.request) == |es|;
  }

  predicate Mine(es: seq<Entry>, actor: Id, undo: bool)
    requires es != []
  {
    Stack(es, undo) != [] &&
    var i := Find(es, Stack(es, undo)[|Stack(es, undo)| - 1]);
    i < |es| && es[i].operation.actor == actor
  }

  lemma ReversalCommits(check: Check, es: seq<Entry>, q: Request, given: Given, undo: bool)
    requires es != [] && StacksSound(es) && Mine(es, q.actor, undo)
    requires forall i :: 0 <= i < |es| ==> check(es[i].after.document) && check(es[i].before.document)
    ensures DispatchReversal(check, es, q, given, undo).Commit?
  {
    hide Find;
  }

  /** The actor's own entry is on top of the stack: a reversal is published. */
  lemma ReversalPublishes(check: Check, draft: Id, actor: Id, es: seq<Entry>, m: Move, undo: bool)
    requires Legal(check, draft, es) && es != [] && FreshMove(draft, es, m)
    requires m.action == (if undo then TakeBack else PutBack) && Mine(es, actor, undo)
    ensures var r := Dispatch(check, es, RequestAt(es, actor, draft, m), m.given);
      r.Commit? && r.entry.kind == (if undo then Undo else Redo) && Reverses(es, r.entry, undo)
      && r.entry.id == m.given.entry
  {
    LegalIsStacked(check, draft, es);
    LegalIsChained(check, draft, es);
    var q := RequestAt(es, actor, draft, m);
    DispatchIsReversal(check, draft, actor, es, m, undo);
    ReversalCommits(check, es, q, m.given, undo);
    ReversalMoves(check, es, q, m.given, undo);
    hide Legal, Dispatch, DispatchReversal, StacksSound, Mine, Reverses, FreshMove;
  }

  /** The top `k` undo entries are the actor's own. */
  predicate OwnTop(es: seq<Entry>, actor: Id, k: nat)
    requires es != []
  {
    var stack := Last(es).undo;
    k <= |stack| && forall n :: |stack| - k <= n < |stack| ==>
      Find(es, stack[n]) < |es| && es[Find(es, stack[n])].operation.actor == actor
  }

  /** The two heads have the same content, branch and stacks. */
  predicate SameHead(a: Entry, b: Entry) {
    a.after == b.after && a.branch == b.branch && a.undo == b.undo && a.redo == b.redo
  }

  predicate AllOf(ms: seq<Move>, action: Action) {
    forall i :: 0 <= i < |ms| ==> ms[i].action == action
  }

  /** An undo leaves one own entry fewer on top. */
  lemma OwnTopAfterUndo(es: seq<Entry>, actor: Id, k: nat, e: Entry)
    requires es != [] && k > 0 && OwnTop(es, actor, k) && Reverses(es, e, true)
    ensures OwnTop(es + [e], actor, k - 1)
  {
    var stack := Last(es).undo;
    forall n | |e.undo| - (k - 1) <= n < |e.undo|
      ensures Find(es + [e], e.undo[n]) < |es + [e]|
      ensures (es + [e])[Find(es + [e], e.undo[n])].operation.actor == actor
    {
      assert e.undo[n] == stack[n];
      FindInPrefix(es, es + [e], stack[n]);
    }
  }

  /** The first undo of a run, and what it leaves to the rest. */
  lemma FirstUndo(check: Check, draft: Id, actor: Id, es: seq<Entry>, ms: seq<Move>, k: nat) returns (e: Entry)
    requires Legal(check, draft, es) && es != [] && ms != [] && Fresh(draft, es, ms)
    requires ms[0].action == TakeBack && k > 0 && OwnTop(es, actor, k)
    ensures Dispatch(check, es, RequestAt(es, actor, draft, ms[0]), ms[0].given) == Commit(e)
    ensures Legal(check, draft, es + [e]) && Fresh(draft, es + [e], ms[1..])
    ensures Reverses(es, e, true) && e.operation.actor == actor && OwnTop(es + [e], actor, k - 1)
  {
    assert FreshMove(draft, es, ms[0]);
    assert Mine(es, actor, true);
    hide Mine, Legal, Dispatch;
    ReversalPublishes(check, draft, actor, es, ms[0], true);
    e := Dispatch(check, es, RequestAt(es, actor, draft, ms[0]), ms[0].given).entry;
    MovePublishes(check, draft, actor, es, ms[0], e);
    FreshAfter(check, draft, actor, es, ms, e);
    OwnTopAfterUndo(es, actor, k, e);
  }

  /** `k` undos and then `k` redos by the same actor, all accepted, give back the content, the
      branch and both stacks. */
  lemma {:induction false} UndosThenRedos(check: Check, draft: Id, actor: Id, es: seq<Entry>, us: seq<Move>,
      rs: seq<Move>)
    requires Legal(check, draft, es) && es != [] && Fresh(draft, es, us + rs)
    requires |us| == |rs| && AllOf(us, TakeBack) && AllOf(rs, PutBack) && OwnTop(es, actor, |us|)
    ensures var r := Applied(check, draft, actor, es, us + rs);
      r.Some? && r.value != [] && SameHead(Last(r.value), Last(es))
    decreases |us|
  {
    hide Dispatch, Fresh, OwnTop, Legal, Reverses;
    if us == [] {
      assert us + rs == [];
    } else {
      var k := |us| - 1;
      var r := rs[k];
      var inner := us[1..] + rs[..k];
      assert (us + rs)[0] == us[0] && (us + rs)[1..] == inner + [r];
      var e := FirstUndo(check, draft, actor, es, us + rs, |us|);
      FreshPrefix(draft, es + [e], inner, [r]);
      UndosThenRedos(check, draft, actor, es + [e], us[1..], rs[..k]);
      assert Last(es + [e]) == e;
      RedoCloses(check, draft, actor, es, e, inner, r);
    }
  }

  /** A redo of what an undo took back, from a head like the undo's, restores the head before. */
  lemma PairCloses(es: seq<Entry>, e: Entry, t: seq<Entry>, f: Entry)
    requires es != [] && t != [] && es <= t
    requires Reverses(es, e, true) && SameHead(Last(t), e) && Reverses(t, f, false)
    ensures SameHead(f, Last(es))
  {
    var top := Last(es).undo[|Last(es).undo| - 1];
    FindInPrefix(es, t, top);
    hide Find;
    assert Last(t).redo[|Last(t).redo| - 1] == top;
    assert Last(es).undo == e.undo + [top];
    assert Last(es).redo == e.redo[..|e.redo| - 1];
  }

  lemma RedoIsMine(es: seq<Entry>, e: Entry, t: seq<Entry>)
    requires es != [] && t != [] && es <= t && Reverses(es, e, true) && SameHead(Last(t), e)
    ensures Mine(t, e.operation.actor, false)
  {
    var top := Last(es).undo[|Last(es).undo| - 1];
    FindInPrefix(es, t, top);
    hide Find;
    assert Last(t).redo[|Last(t).redo| - 1] == top;
  }

  /** What a redo finds after an undo and a run that brought the undo's head back. */
  lemma RedoUndoes(check: Check, draft: Id, actor: Id, es: seq<Entry>, e: Entry, t: seq<Entry>, r: Move)
    requires es != [] && t != [] && es <= t && Legal(check, draft, t) && FreshMove(draft, t, r)
    requires Reverses(es, e, true) && e.operation.actor == actor && r.action == PutBack && SameHead(Last(t), e)
    ensures var o := Dispatch(check, t, RequestAt(t, actor, draft, r), r.given);
      o.Commit? && SameHead(o.entry, Last(es))
  {
    hide Dispatch, Legal, FreshMove, Reverses, Mine, SameHead;
    RedoIsMine(es, e, t);
    ReversalPublishes(check, draft, actor, t, r, false);
    PairCloses(es, e, t, Dispatch(check, t, RequestAt(t, actor, draft, r), r.given).entry);
  }

  /** After an undo and a run that brings its head back, the redo takes back the undo. */
  lemma RedoCloses(check: Check, draft: Id, actor: Id, es: seq<Entry>, e: Entry, inner: seq<Move>, r: Move)
    requires es != [] && Legal(check, draft, es + [e]) && Fresh(draft, es + [e], inner + [r])
    requires Reverses(es, e, true) && e.operation.actor == actor && r.action == PutBack
    requires var t := Applied(check, draft, actor, es + [e], inner);
      t.Some? && t.value != [] && SameHead(Last(t.value), e)
    ensures var t := Applied(check, draft, actor, es + [e], inner + [r]);
      t.Some? && t.value != [] && SameHead(Last(t.value), Last(es))
  {
    var t := Applied(check, draft, actor, es + [e], inner).value;
    FreshPrefix(draft, es + [e], inner, [r]);
    AppliedIsLegal(check, draft, actor, es + [e], inner);
    FreshAfterAll(check, draft, actor, es + [e], inner, [r]);
    assert FreshMove(draft, t, [r][0]);
    AppliedAppend(check, draft, actor, es + [e], inner, [r]);
    hide Dispatch, Legal, Fresh, Reverses, FreshMove;
    assert es <= t;
    RedoUndoes(check, draft, actor, es, e, t, r);
    AppliedOne(check, draft, actor, t, r);
  }

  lemma AppliedOne(check: Check, draft: Id, actor: Id, es: seq<Entry>, m: Move)
    requires es != []
    ensures var o := Dispatch(check, es, RequestAt(es, actor, draft, m), m.given);
      Applied(check, draft, actor, es, [m]) == if o.Commit? then Some(es + [o.entry]) else None
  {
    hide Dispatch;
  }

  // ---- Edit against undo ----------------------------------------------------------------------

  predicate AllEdits(ms: seq<Move>) {
    forall i :: 0 <= i < |ms| ==> ms[i].action.Alter?
  }

  /** The head's content and undo stack are back; the branch is unless there was something to
      redo, when the first edit left it for a new one. */
  predicate Restored(es: seq<Entry>, t: seq<Entry>, edited: bool)
    requires es != [] && t != []
  {
    && Last(t).after == Last(es).after && Last(t).undo == Last(es).undo
    && (Last(t).branch == Last(es).branch <==> !(edited && Last(es).redo != []))
    && (Last(t).branch != Last(es).branch ==> forall i :: 0 <= i < |es| ==> es[i].branch.id != Last(t).branch.id)
  }

  /** What an edit publishes. */
  lemma EditShape(check: Check, draft: Id, actor: Id, es: seq<Entry>, m: Move)
    requires es != [] && FreshMove(draft, es, m) && m.action.Alter?
    requires Dispatch(check, es, RequestAt(es, actor, draft, m), m.given).Commit?
    ensures var e := Dispatch(check, es, RequestAt(es, actor, draft, m), m.given).entry;
      && e.kind == Edit && e.undo == Last(es).undo + [e.id] && e.redo == [] && e.before == Last(es).after
      && e.branch == (if Last(es).redo == [] then Last(es).branch else Branch(m.given.branch, Some(Last(es).id)))
  {
    assert FindRequest(es, m.request) == |es|;
  }

  /** The undo of the edit `e`, from a head whose content and undo stack are the edit's. */
  lemma UndoOfEdit(check: Check, draft: Id, actor: Id, es: seq<Entry>, e: Entry, t: seq<Entry>, u: Move)
    requires es != [] && t != [] && es + [e] <= t && Legal(check, draft, t) && FreshMove(draft, t, u)
    requires u.action == TakeBack && e.operation.actor == actor && Find(es, e.id) == |es|
    requires e.undo == Last(es).undo + [e.id] && e.before == Last(es).after
    requires Last(t).after == e.after && Last(t).undo == e.undo
    ensures var o := Dispatch(check, t, RequestAt(t, actor, draft, u), u.given);
      o.Commit? && o.entry.after == Last(es).after && o.entry.undo == Last(es).undo && o.entry.branch == Last(t).branch
  {
    hide Dispatch, Legal, FreshMove;
    FindExtends(es, e, e.id);
    FindInPrefix(es + [e], t, e.id);
    hide Find;
    assert t[|es|] == e;
    assert Last(t).undo[|Last(t).undo| - 1] == e.id;
    assert Mine(t, actor, true);
    ReversalPublishes(check, draft, actor, t, u, true);
    assert e.undo[..|e.undo| - 1] == Last(es).undo;
  }

  /** `k` edits, all of which change the document, and then `k` undos by the same actor are all
      accepted and bring back the content and the undo stack. */
  lemma {:induction false} EditsThenUndos(check: Check, draft: Id, actor: Id, es: seq<Entry>, xs: seq<Move>,
      us: seq<Move>)
    requires Legal(check, draft, es) && es != [] && Fresh(draft, es, xs + us)
    requires |xs| == |us| && AllEdits(xs) && AllOf(us, TakeBack) && Applied(check, draft, actor, es, xs).Some?
    ensures var r := Applied(check, draft, actor, es, xs + us);
      r.Some? && r.value != [] && Restored(es, r.value, xs != [])
    decreases |xs|
  {
    hide Dispatch, Fresh, Legal, FreshMove;
    if xs == [] {
      assert xs + us == [];
    } else {
      var k := |xs| - 1;
      var u := us[k];
      var inner := xs[1..] + us[..k];
      assert (xs + us)[0] == xs[0] && (xs + us)[1..] == inner + [u];
      var e := FirstEdit(check, draft, actor, es, xs + us);
      FreshPrefix(draft, es + [e], inner, [u]);
      EditsThenUndos(check, draft, actor, es + [e], xs[1..], us[..k]);
      assert Last(es + [e]) == e;
      UndoCloses(check, draft, actor, es, e, inner, u);
    }
  }

  lemma FirstEdit(check: Check, draft: Id, actor: Id, es: seq<Entry>, ms: seq<Move>) returns (e: Entry)
    requires Legal(check, draft, es) && es != [] && ms != [] && Fresh(draft, es, ms) && ms[0].action.Alter?
    requires Dispatch(check, es, RequestAt(es, actor, draft, ms[0]), ms[0].given).Commit?
    ensures Dispatch(check, es, RequestAt(es, actor, draft, ms[0]), ms[0].given) == Commit(e)
    ensures Legal(check, draft, es + [e]) && Fresh(draft, es + [e], ms[1..]) && Edited(es, e)
    ensures e.operation.actor == actor
  {
    assert FreshMove(draft, es, ms[0]);
    e := Dispatch(check, es, RequestAt(es, actor, draft, ms[0]), ms[0].given).entry;
    EditShape(check, draft, actor, es, ms[0]);
    hide Dispatch, Legal;
    MovePublishes(check, draft, actor, es, ms[0], e);
    FreshAfter(check, draft, actor, es, ms, e);
  }

  /** An entry as an edit publishes it. */
  predicate Edited(es: seq<Entry>, e: Entry)
    requires es != []
  {
    && Find(es, e.id) == |es| && e.undo == Last(es).undo + [e.id] && e.redo == [] && e.before == Last(es).after
    && (Last(es).redo == [] ==> e.branch == Last(es).branch)
    && (Last(es).redo != [] ==> forall i :: 0 <= i < |es| ==> es[i].branch.id != e.branch.id)
  }

  lemma UndoCloses(check: Check, draft: Id, actor: Id, es: seq<Entry>, e: Entry, inner: seq<Move>, u: Move)
    requires es != [] && Legal(check, draft, es + [e]) && Fresh(draft, es + [e], inner + [u])
    requires Edited(es, e) && e.operation.actor == actor && u.action == TakeBack
    requires var t := Applied(check, draft, actor, es + [e], inner);
      t.Some? && t.value != [] && Restored(es + [e], t.value, inner != [])
    ensures var t := Applied(check, draft, actor, es + [e], inner + [u]);
      t.Some? && t.value != [] && Restored(es, t.value, true)
  {
    var t := Applied(check, draft, actor, es + [e], inner).value;
    FreshPrefix(draft, es + [e], inner, [u]);
    AppliedIsLegal(check, draft, actor, es + [e], inner);
    FreshAfterAll(check, draft, actor, es + [e], inner, [u]);
    assert FreshMove(draft, t, [u][0]);
    AppliedAppend(check, draft, actor, es + [e], inner, [u]);
    hide Dispatch, Legal, Fresh, FreshMove, Find;
    assert Last(es + [e]) == e;
    UndoOfEdit(check, draft, actor, es, e, t, u);
    AppliedOne(check, draft, actor, t, u);
  }

  /** Edits and reversals record no saved version. */
  lemma {:induction false} RunsSaveNothing(check: Check, draft: Id, actor: Id, es: seq<Entry>, ms: seq<Move>)
    requires es != [] && Applied(check, draft, actor, es, ms).Some?
    ensures var t := Applied(check, draft, actor, es, ms).value;
      es <= t && forall i :: |es| <= i < |t| ==> t[i].saved == None
    decreases |ms|
  {
    if ms != [] {
      MoveSavesNothing(check, draft, actor, es, ms[0]);
      hide Dispatch;
      var e := Dispatch(check, es, RequestAt(es, actor, draft, ms[0]), ms[0].given).entry;
      RunsSaveNothing(check, draft, actor, es + [e], ms[1..]);
    }
  }

  lemma MoveSavesNothing(check: Check, draft: Id, actor: Id, es: seq<Entry>, m: Move)
    requires es != []
    ensures var o := Dispatch(check, es, RequestAt(es, actor, draft, m), m.given); o.Commit? ==> o.entry.saved == None
  {
  }

  /** Taking every edit back shows no unsaved changes exactly when there were none before and
      nothing to redo; otherwise the first edit had moved to a branch with no saved version. */
  lemma DirtyAfterUndos(check: Check, draft: Id, actor: Id, es: seq<Entry>, xs: seq<Move>, us: seq<Move>)
    requires Legal(check, draft, es) && es != [] && Fresh(draft, es, xs + us)
    requires |xs| == |us| && AllEdits(xs) && AllOf(us, TakeBack) && Applied(check, draft, actor, es, xs).Some?
    ensures var r := Applied(check, draft, actor, es, xs + us);
      r.Some? && r.value != [] && (Dirty(r.value) <==> Dirty(es) || (xs != [] && Last(es).redo != []))
  {
    EditsThenUndos(check, draft, actor, es, xs, us);
    RunsSaveNothing(check, draft, actor, es, xs + us);
    var t := Applied(check, draft, actor, es, xs + us).value;
    hide Applied, Legal, Fresh;
    if !Dirty(es) && !(xs != [] && Last(es).redo != []) {
      var i :| 0 <= i < |es| && es[i].saved.Some? && es[i].after == Last(es).after
        && es[i].branch.id == Last(es).branch.id;
      assert t[i] == es[i];
    }
    if !Dirty(t) {
      var i :| 0 <= i < |t| && t[i].saved.Some? && t[i].after == Last(t).after && t[i].branch.id == Last(t).branch.id;
      assert i < |es| && es[i] == t[i];
    }
  }
}
