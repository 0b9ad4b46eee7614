/** Two short histories that show where replays and the unsaved-changes flag may surprise. */
module HistoryExamples {
  import opened Wrappers
  import opened History
  import opened HistoryRuns

  /** Every document passes the check. */
  predicate Any(d: Document) {
    true
  }

  const DRAFT: Id := 1
  const ACTOR: Id := 2
  const ROOT := Branch(200, None)

  const OLD := Document(DRAFT, 0)
  const NEW := Document(DRAFT, 5)

  /** The draft is imported by an opening, edited, the edit taken back, and the result saved. */
  const OPENING := Request(ACTOR, 10, DRAFT, Open(None))
  const EDITING := Request(ACTOR, 11, DRAFT, EditAt(100, 5))
  const UNDOING := Request(ACTOR, 12, DRAFT, UndoAt(101))
  const SAVING := Request(ACTOR, 13, DRAFT, SaveAt(102))

  const IMPORTED := Entry(100, 1, None, ROOT, Start, DigestOf(OLD), DigestOf(OLD), OPENING, None, [], [], Some(1))
  const EDITED := Entry(101, 2, Some(100), ROOT, Edit, DigestOf(OLD), DigestOf(NEW), EDITING, None, [101], [], None)
  const UNDONE :=
    Entry(102, 3, Some(101), ROOT, Undo, DigestOf(NEW), DigestOf(OLD), UNDOING, Some(101), [], [101], None)
  const SAVED := Entry(103, 4, Some(102), ROOT, Save, DigestOf(OLD), DigestOf(OLD), SAVING, None, [], [101], Some(2))

  function Giving(edited: Result<Document, ()>, legacy: Option<Document>, revision: nat, n: nat): Given {
    Given(edited, legacy, revision, 100 + n, 200 + n)
  }

  /** One more published entry keeps the journal legal. */
  lemma OneMore(es: seq<Entry>, given: Given, e: Entry)
    requires Legal(Any, DRAFT, es) && e.operation.draft == DRAFT && Proper(es, e.operation, given)
    requires Dispatch(Any, es, e.operation, given) == Commit(e)
    ensures Legal(Any, DRAFT, es + [e])
  {
    hide Dispatch;
    assert Published(Any, DRAFT, es, e);
    LegalExtends(Any, DRAFT, es, e);
  }

  lemma EditedIsLegal()
    ensures Legal(Any, DRAFT, [IMPORTED, EDITED])
  {
    assert Legal(Any, DRAFT, []);
    hide Legal;
    OneMore([], Giving(Failure(()), Some(OLD), 1, 0), IMPORTED);
    assert [] + [IMPORTED] == [IMPORTED];
    OneMore([IMPORTED], Giving(Success(NEW), None, 0, 1), EDITED);
    assert [IMPORTED] + [EDITED] == [IMPORTED, EDITED];
  }

  /** Replaying the opening that imported the draft does not answer its own entry. */
  lemma ImportReplaysDifferently(given: Given)
    ensures Legal(Any, DRAFT, [IMPORTED, EDITED]) && IMPORTED.operation == OPENING
    ensures Dispatch(Any, [IMPORTED, EDITED], OPENING, given) == Answer([IMPORTED, EDITED])
    ensures Last([IMPORTED, EDITED]).after != IMPORTED.after
  {
    EditedIsLegal();
  }

  const SHORT := [IMPORTED, EDITED, UNDONE, SAVED]

  lemma SavedIsLegal()
    ensures Legal(Any, DRAFT, SHORT)
  {
    var two, three := [IMPORTED, EDITED], [IMPORTED, EDITED, UNDONE];
    EditedIsLegal();
    hide Legal;
    assert two[1..] == [EDITED];
    assert Find(two, 101) == 1 && FindRequest(two, 12) == 2;
    OneMore(two, Giving(Failure(()), None, 0, 2), UNDONE);
    assert two + [UNDONE] == three;
    assert three[1..] == [EDITED, UNDONE] && [EDITED, UNDONE][1..] == [UNDONE];
    assert FindRequest(three, 13) == 3;
    OneMore(three, Giving(Failure(()), None, 2, 3), SAVED);
    assert three + [SAVED] == SHORT;
  }

  const ALTER := Move(Alter(6), 14, Giving(Success(NEW), None, 0, 4))
  const TAKE_BACK := Move(TakeBack, 15, Giving(Failure(()), None, 0, 5))

  lemma AlterIsAccepted()
    ensures Applied(Any, DRAFT, ACTOR, SHORT, [ALTER]).Some?
  {
    assert SHORT[3] == SAVED;
    assert SHORT[1..] == [EDITED, UNDONE, SAVED] && [EDITED, UNDONE, SAVED][1..] == [UNDONE, SAVED]
        && [UNDONE, SAVED][1..] == [SAVED];
    assert FindRequest(SHORT, 14) == 4;
    AppliedOne(Any, DRAFT, ACTOR, SHORT, ALTER);
  }

  /** A saved draft that is edited and has the edit taken back shows unsaved changes, although its
      content is the saved one: the edit left for a new branch. */
  lemma SavedContentShownUnsaved()
    ensures Legal(Any, DRAFT, SHORT) && !Dirty(SHORT)
    ensures var r := Applied(Any, DRAFT, ACTOR, SHORT, [ALTER] + [TAKE_BACK]);
      r.Some? && r.value != [] && Last(r.value).after == SAVED.after && Dirty(r.value)
  {
    SavedIsLegal();
    AlterIsAccepted();
    assert SHORT[3] == SAVED && SAVED.saved.Some?;
    MovesAreFresh();
    hide Legal, Applied, Dispatch, Fresh;
    EditsThenUndos(Any, DRAFT, ACTOR, SHORT, [ALTER], [TAKE_BACK]);
    DirtyAfterUndos(Any, DRAFT, ACTOR, SHORT, [ALTER], [TAKE_BACK]);
  }

  lemma MovesAreFresh()
    ensures Fresh(DRAFT, SHORT, [ALTER] + [TAKE_BACK])
  {
  }
}
