/** A dispatch that nobody races: every step of it, up to the report. */
module HistoryCommits {
  import opened Wrappers
  import opened History
  import opened HistoryRaces
  import opened HistoryRepository

  lemma First(check: Check, w: World, act: Act, rest: seq<Act>)
    requires Enabled(w, act) && Runs(check, Next(check, w, act), rest)
    ensures Runs(check, w, [act] + rest)
    ensures After(check, w, [act] + rest) == After(check, Next(check, w, act), rest)
  {
    hide Next, Enabled;
    assert ([act] + rest)[0] == act && ([act] + rest)[1..] == rest;
  }

  /** The second reading of the journal lets exactly those entries pass whose number is still free. */
  lemma RecheckPassesIffFree(check: Check, w: World, client: nat)
    requires Sound(check, w) && PhaseOf(w, client).Checking?
    ensures var p := PhaseOf(w, client);
      PhaseOf(Next(check, w, Recheck(client)), client) ==
        if p.entry.sequence !in FilesOf(w, p.draft) then Linking(p.draft, p.entry) else Idle
  {
    var p := PhaseOf(w, client);
    SoundDraft(check, w, p.draft);
    assert ClientSound(check, w, client);
    hide Legal, Published, Numbered, InPlace, Entries, Prepared, Sequential, Sound;
    var now := SequentialIsRead(check, p.draft, FilesOf(w, p.draft));
    if p.entry.sequence !in FilesOf(w, p.draft) {
      PreparedMatches(check, p.draft, now, p.entry);
      PublishedShape(check, p.draft, now, p.entry);
    } else {
      NotNext(now, p.entry.sequence);
    }
  }

  lemma NotNext(es: seq<Entry>, n: nat)
    requires n in Numbered(es)
    ensures n != |es| + 1
  {
  }

  /** The five steps of a dispatch. */
  function Steps(client: nat, request: Request, given: Given): seq<Act> {
    [Begin(client, request, given), Store(client), Recheck(client), Link(client), Flush(client)]
  }

  lemma FollowsInOrder(check: Check, w: World, client: nat, request: Request, given: Given)
    requires Enabled(w, Begin(client, request, given))
    requires Enabled(Next(check, w, Begin(client, request, given)), Store(client))
    requires var s1 := Next(check, w, Begin(client, request, given));
      Enabled(Next(check, s1, Store(client)), Recheck(client))
    requires var s1 := Next(check, w, Begin(client, request, given));
      Enabled(Next(check, Next(check, s1, Store(client)), Recheck(client)), Link(client))
    requires var s1 := Next(check, w, Begin(client, request, given));
      var s3 := Next(check, Next(check, s1, Store(client)), Recheck(client));
      Enabled(Next(check, s3, Link(client)), Flush(client))
    ensures Runs(check, w, Steps(client, request, given))
    ensures var s1 := Next(check, w, Begin(client, request, given));
      var s3 := Next(check, Next(check, s1, Store(client)), Recheck(client));
      After(check, w, Steps(client, request, given)) ==
        Next(check, Next(check, s3, Link(client)), Flush(client))
  {
    hide Next, Enabled;
    var s1 := Next(check, w, Begin(client, request, given));
    var s2 := Next(check, s1, Store(client));
    var s3 := Next(check, s2, Recheck(client));
    First(check, Next(check, s3, Link(client)), Flush(client), []);
    First(check, s3, Link(client), [Flush(client)]);
    First(check, s2, Recheck(client), [Link(client), Flush(client)]);
    First(check, s1, Store(client), [Recheck(client), Link(client), Flush(client)]);
    First(check, w, Begin(client, request, given), [Store(client), Recheck(client), Link(client), Flush(client)]);
    assert [Flush(client)] + [] == [Flush(client)];
    assert [Link(client)] + [Flush(client)] == [Link(client), Flush(client)];
    assert [Recheck(client)] + [Link(client), Flush(client)] == [Recheck(client), Link(client), Flush(client)];
    assert [Store(client)] + [Recheck(client), Link(client), Flush(client)] ==
      [Store(client), Recheck(client), Link(client), Flush(client)];
    assert [Begin(client, request, given)] + [Store(client), Recheck(client), Link(client), Flush(client)] ==
      Steps(client, request, given);
  }

  /** New identifiers are new to the journal read. */
  lemma NewToJournal(w: World, client: nat, request: Request, given: Given, es: seq<Entry>)
    requires Enabled(w, Begin(client, request, given))
    requires FilesOf(w, request.draft) == Numbered(es) && Stored(w, request.draft)
    ensures Proper(es, request, given)
  {
    NumberedIssued(w, request.draft, es);
    hide Numbered, Stored;
  }

  /** The entry made is the next of the journal that was read. */
  lemma BeginFits(check: Check, w: World, client: nat, request: Request, given: Given, es: seq<Entry>)
    requires Sound(check, w) && Enabled(w, Begin(client, request, given))
    requires Entries(request.draft, FilesOf(w, request.draft)) == Some(es)
    requires Dispatch(check, es, request, given).Commit?
    ensures var e := Dispatch(check, es, request, given).entry;
      FitsNext(es, e) && e.after.document.draft == request.draft
  {
    var draft := request.draft;
    hide *;
    SoundDraft(check, w, draft);
    var now := SequentialIsRead(check, draft, FilesOf(w, draft));
    NewToJournal(w, client, request, given, es);
    LegalInDraft(check, draft, es);
    DispatchInDraft(check, draft, es, request, given);
    DispatchPublishes(check, draft, es, request, given);
    var e := Dispatch(check, es, request, given).entry;
    PublishedShape(check, draft, es, e);
    FitsAfter(es, e);
  }

  lemma FitsAfter(es: seq<Entry>, e: Entry)
    requires e.sequence == |es| + 1 && e.parent == (if es == [] then None else Some(Last(es).id))
    requires es != [] ==> e.before == Last(es).after
    ensures FitsNext(es, e)
  {
  }

  /** The client has made an entry for the draft and the record files are as they were. */
  ghost predicate Underway(w: World, t: World, client: nat, p: Phase) {
    PhaseOf(t, client) == p && forall draft :: FilesOf(t, draft) == FilesOf(w, draft)
  }

  lemma BeginMakes(check: Check, w: World, client: nat, request: Request, given: Given, es: seq<Entry>)
    requires Enabled(w, Begin(client, request, given))
    requires Entries(request.draft, FilesOf(w, request.draft)) == Some(es)
    requires Dispatch(check, es, request, given).Commit?
    ensures Underway(w, Next(check, w, Begin(client, request, given)), client,
                     Storing(request.draft, Dispatch(check, es, request, given).entry))
  {
    hide Entries, Dispatch;
  }

  lemma StoreKeeps(check: Check, w: World, t: World, client: nat, draft: Id, e: Entry)
    requires Underway(w, t, client, Storing(draft, e))
    ensures Underway(w, Next(check, t, Store(client)), client, Checking(draft, e))
    ensures e.after in Next(check, t, Store(client)).checkpoints
  {
  }

  lemma RecheckPasses(check: Check, w: World, t: World, client: nat, draft: Id, e: Entry)
    requires Sound(check, t) && Underway(w, t, client, Checking(draft, e)) && e.sequence !in FilesOf(w, draft)
    ensures Underway(w, Next(check, t, Recheck(client)), client, Linking(draft, e))
  {
    hide Sound;
    RecheckPassesIffFree(check, t, client);
    hide Entries;
  }

  lemma LinkAndFlush(check: Check, w: World, t: World, client: nat, draft: Id, e: Entry)
    requires Underway(w, t, client, Linking(draft, e)) && e.sequence !in FilesOf(w, draft)
    ensures var s := Next(check, t, Link(client));
      Enabled(s, Flush(client)) && Landed(w, Next(check, s, Flush(client)), client, draft, e)
  {
  }

  /** The entry's record has been added to those of its draft, and reported. */
  ghost predicate Landed(w: World, t: World, client: nat, draft: Id, e: Entry) {
    && PhaseOf(t, client).Idle? && (draft, e) in t.acknowledged
    && FilesOf(t, draft) == FilesOf(w, draft)[e.sequence := e]
    && forall other :: other != draft ==> FilesOf(t, other) == FilesOf(w, other)
  }

  /** A crash forgets the dispatch in progress; what was linked stays linked, reported or not. */
  lemma CrashForgets(check: Check, w: World, client: nat)
    ensures var t := Next(check, w, Crash(client));
      && PhaseOf(t, client).Idle? && t.journals == w.journals && t.checkpoints == w.checkpoints
      && t.acknowledged == w.acknowledged
  {
  }

  /** A dispatch that nobody disturbs publishes its entry: the journal afterwards is the one before
      with the entry, its content is stored, and the caller is told; no other draft is touched. */
  lemma UndisturbedCommit(check: Check, w: World, client: nat, request: Request, given: Given, es: seq<Entry>)
    requires Sound(check, w) && Enabled(w, Begin(client, request, given))
    requires Entries(request.draft, FilesOf(w, request.draft)) == Some(es)
    requires Dispatch(check, es, request, given).Commit?
    ensures Runs(check, w, Steps(client, request, given))
    ensures var e := Dispatch(check, es, request, given).entry;
      var t := After(check, w, Steps(client, request, given));
      && Landed(w, t, client, request.draft, e) && e.after in t.checkpoints
      && Entries(request.draft, FilesOf(t, request.draft)) == Some(es + [e])
  {
    var e := Dispatch(check, es, request, given).entry;
    var draft := request.draft;
    BeginFits(check, w, client, request, given, es);
    BeginMakes(check, w, client, request, given, es);
    EntriesIffChain(draft, FilesOf(w, draft), es);
    CommittedIsRead(draft, es, e);
    var s1 := Next(check, w, Begin(client, request, given));
    StepKeepsSound(check, w, Begin(client, request, given));
    hide Next, Dispatch, Entries, Sound, Numbered, Chained, Runs, After, Begun;
    StoreKeeps(check, w, s1, client, draft, e);
    var s2 := Next(check, s1, Store(client));
    StepKeepsSound(check, s1, Store(client));
    RecheckPasses(check, w, s2, client, draft, e);
    var s3 := Next(check, s2, Recheck(client));
    LinkAndFlush(check, w, s3, client, draft, e);
    FollowsInOrder(check, w, client, request, given);
    StepExtends(check, s2, Recheck(client));
    StepExtends(check, s3, Link(client));
    StepExtends(check, Next(check, s3, Link(client)), Flush(client));
  }
}
