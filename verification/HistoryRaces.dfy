/** Several repository instances and services over one history directory. */
module HistoryRaces {
  import opened Wrappers
  import opened History
  import opened HistoryRuns

  /** The numbered record files of one draft. */
  type Files = map<nat, Entry>

  // ---- Reading a journal ----------------------------------------------------------------------

  /** The record fits as the next of the journal read so far. */
  predicate FitsNext(es: seq<Entry>, e: Entry) {
    && e.sequence == |es| + 1
    && e.parent == (if es == [] then None else Some(Last(es).id))
    && (es != [] ==> e.before == Last(es).after)
  }

  /** The first `n` records, unless one is missing or does not fit. */
  function Scan(files: Files, n: nat): Option<seq<Entry>> {
    if n == 0 then Some([])
    else
      match Scan(files, n - 1)
      case None => None
      case Some(es) => if n in files && FitsNext(es, files[n]) then Some(es + [files[n]]) else None
  }

  /** `entries`: the whole journal, or nothing when it is incomplete, inconsistent or another
      draft's. */
  function Entries(draft: Id, files: Files): Option<seq<Entry>> {
    match Scan(files, |files|)
    case None => None
    case Some(es) => if es != [] && Last(es).after.document.draft != draft then None else Some(es)
  }

  function Numbers(n: nat): (r: set<nat>)
    ensures |r| == n && forall k :: k in r <==> 1 <= k <= n
  {
    if n == 0 then {} else Numbers(n - 1) + {n}
  }

  /** The record files of a journal. */
  function Numbered(es: seq<Entry>): Files {
    map n | n in Numbers(|es|) :: es[n - 1]
  }

  /** The first `n` entries are in place. */
  predicate InPlace(files: Files, es: seq<Entry>, n: nat) {
    n <= |es| && forall k :: 1 <= k <= n ==> k in files && files[k] == es[k - 1]
  }

  lemma {:induction false} SubsetCount(a: set<nat>, b: set<nat>)
    requires a <= b && |a| == |b|
    ensures a == b
    decreases |a|
  {
    if a == {} {
      assert b == {};
    } else {
      var x :| x in a;
      SubsetCount(a - {x}, b - {x});
      assert a == a - {x} + {x} && b == b - {x} + {x};
    }
  }

  lemma ChainAppends(es: seq<Entry>, e: Entry)
    requires Chained(es) && FitsNext(es, e)
    ensures Chained(es + [e])
  {
    forall i | 0 <= i < |es + [e]| ensures LinkedAt(es + [e], i) {
      if i < |es| { assert LinkedAt(es, i); }
    }
  }

  lemma InPlaceAppends(files: Files, es: seq<Entry>, n: nat)
    requires InPlace(files, es, n) && |es| == n && n + 1 in files
    ensures InPlace(files, es + [files[n + 1]], n + 1)
  {
    var t := es + [files[n + 1]];
    forall k | 1 <= k <= n + 1 ensures k in files && files[k] == t[k - 1] {
      if k <= n { assert t[k - 1] == es[k - 1]; }
    }
  }

  lemma {:induction false} ScanReads(files: Files, n: nat)
    ensures Scan(files, n).Some? ==> |Scan(files, n).value| == n && Chained(Scan(files, n).value)
    ensures Scan(files, n).Some? ==> InPlace(files, Scan(files, n).value, n)
  {
    if n > 0 && Scan(files, n).Some? {
      ScanReads(files, n - 1);
      var es := Scan(files, n - 1).value;
      hide Chained, InPlace, FitsNext;
      ChainAppends(es, files[n]);
      InPlaceAppends(files, es, n - 1);
    } else {
      assert n == 0 ==> Chained([]) && InPlace(files, [], 0);
    }
  }

  lemma {:induction false} ScanAccepts(files: Files, es: seq<Entry>, n: nat)
    requires Chained(es) && InPlace(files, es, n)
    ensures Scan(files, n) == Some(es[..n])
  {
    if n > 0 {
      ScanAccepts(files, es, n - 1);
      assert LinkedAt(es, n - 1);
      assert es[..n] == es[..n - 1] + [es[n - 1]];
    }
  }

  lemma InPlaceIsNumbered(files: Files, es: seq<Entry>)
    requires |files| == |es|
    ensures InPlace(files, es, |es|) <==> files == Numbered(es)
  {
    if InPlace(files, es, |es|) {
      assert |files.Keys| == |files|;
      SubsetCount(Numbers(|es|), files.Keys);
    }
    if files == Numbered(es) {
      forall k | 1 <= k <= |es| ensures k in files && files[k] == es[k - 1] { assert k in Numbers(|es|); }
    }
  }

  lemma NumberedCount(es: seq<Entry>)
    ensures |Numbered(es)| == |es|
  {
    assert Numbered(es).Keys == Numbers(|es|);
  }

  /** The journal read is accepted exactly when the files are a gapless chain of the draft. */
  lemma EntriesIffChain(draft: Id, files: Files, es: seq<Entry>)
    ensures Entries(draft, files) == Some(es) <==>
      files == Numbered(es) && Chained(es) && (es != [] ==> Last(es).after.document.draft == draft)
  {
    ScanReads(files, |files|);
    NumberedCount(es);
    if |files| == |es| {
      InPlaceIsNumbered(files, es);
      if files == Numbered(es) && Chained(es) {
        ScanAccepts(files, es, |es|);
        assert es[..|es|] == es;
      }
    }
  }

  // ---- The steps ------------------------------------------------------------------------------

  /** Where a dispatch stands: nothing in progress; its entry made and its checkpoint to be stored;
      the journal to be read again; the record to be linked; the record in place and the directory
      still to be flushed. */
  datatype Phase =
    | Idle
    | Storing(draft: Id, entry: Entry)
    | Checking(draft: Id, entry: Entry)
    | Linking(draft: Id, entry: Entry)
    | Flushing(draft: Id, entry: Entry)

  /** `issued` are the identifiers handed out, `acknowledged` the entries whose publication was
      reported. */
  datatype World = World(
    journals: map<Id, Files>,
    checkpoints: set<Digest>,
    clients: map<nat, Phase>,
    issued: set<Id>,
    acknowledged: set<(Id, Entry)>)

  const EMPTY := World(map[], {}, map[], {}, {})

  function FilesOf(w: World, draft: Id): Files {
    if draft in w.journals then w.journals[draft] else map[]
  }

  function PhaseOf(w: World, client: nat): Phase {
    if client in w.clients then w.clients[client] else Idle
  }

  datatype Act =
    | Begin(client: nat, request: Request, given: Given)
    | Store(client: nat)
    | Recheck(client: nat)
    | Link(client: nat)
    | Flush(client: nat)
    | Crash(client: nat)

  function Set(w: World, client: nat, p: Phase): World {
    w.(clients := w.clients[client := p])
  }

  predicate Enabled(w: World, act: Act) {
    match act
    case Begin(client, request, given) =>
      && PhaseOf(w, client).Idle?
      && given.entry !in w.issued && given.branch !in w.issued
      && (given.edited.Success? ==> given.edited.value.draft == request.draft)
      && (given.legacy.Some? ==> given.legacy.value.draft == request.draft)
      && (request.command.StartWith? ==> request.command.document.draft == request.draft)
    case Store(client) => PhaseOf(w, client).Storing?
    case Recheck(client) => PhaseOf(w, client).Checking?
    case Link(client) => PhaseOf(w, client).Linking?
    case Flush(client) => PhaseOf(w, client).Flushing?
    case Crash(client) => true
  }

  function Begun(check: Check, w: World, client: nat, request: Request, given: Given): World {
    var w1 := w.(issued := w.issued + {given.entry, given.branch});
    match Entries(request.draft, FilesOf(w, request.draft))
    case None => w1
    case Some(es) =>
      match Dispatch(check, es, request, given)
      case Commit(e) => Set(w1, client, Storing(request.draft, e))
      case _ => w1
  }

  /** `append` reads the journal again before it publishes. */
  function Rechecked(w: World, client: nat): World
    requires PhaseOf(w, client).Checking?
  {
    var p := PhaseOf(w, client);
    match Entries(p.draft, FilesOf(w, p.draft))
    case None => Set(w, client, Idle)
    case Some(es) =>
      if p.entry.sequence != |es| + 1 || p.entry.parent != (if es == [] then None else Some(Last(es).id)) then
        Set(w, client, Idle)
      else Set(w, client, Linking(p.draft, p.entry))
  }

  /** The record file is created only if its number is still free; nothing is reported yet. */
  function Linked(w: World, client: nat): World
    requires PhaseOf(w, client).Linking?
  {
    var p := PhaseOf(w, client);
    var files := FilesOf(w, p.draft);
    if p.entry.sequence in files then Set(w, client, Idle)
    else
      Set(w.(journals := w.journals[p.draft := files[p.entry.sequence := p.entry]]), client, Flushing(p.draft, p.entry))
  }

  /** The directory is flushed and the publication reported. A crash before it, like a flush that
      fails, leaves the record in place without a report. */
  function Flushed(w: World, client: nat): World
    requires PhaseOf(w, client).Flushing?
  {
    var p := PhaseOf(w, client);
    Set(w.(acknowledged := w.acknowledged + {(p.draft, p.entry)}), client, Idle)
  }

  function Next(check: Check, w: World, act: Act): World
    requires Enabled(w, act)
  {
    match act
    case Begin(client, request, given) => Begun(check, w, client, request, given)
    case Store(client) =>
      var p := PhaseOf(w, client);
      Set(w.(checkpoints := w.checkpoints + {p.entry.after}), client, Checking(p.draft, p.entry))
    case Recheck(client) => Rechecked(w, client)
    case Link(client) => Linked(w, client)
    case Flush(client) => Flushed(w, client)
    case Crash(client) => Set(w, client, Idle)
  }

  predicate Runs(check: Check, w: World, acts: seq<Act>)
    decreases |acts|
  {
    acts == [] || (Enabled(w, acts[0]) && Runs(check, Next(check, w, acts[0]), acts[1..]))
  }

  function After(check: Check, w: World, acts: seq<Act>): World
    requires Runs(check, w, acts)
    decreases |acts|
  {
    if acts == [] then w else After(check, Next(check, w, acts[0]), acts[1..])
  }

  // ---- What every interleaving keeps ----------------------------------------------------------

  /** The files are the records of a journal that commands dispatched one after another publish. */
  ghost predicate Sequential(check: Check, draft: Id, files: Files) {
    exists es :: files == Numbered(es) && Legal(check, draft, es)
  }

  /** The entry was made on a journal all of whose records are still in place. */
  ghost predicate Prepared(check: Check, draft: Id, files: Files, e: Entry) {
    exists es :: Legal(check, draft, es) && Published(check, draft, es, e) && InPlace(files, es, |es|)
  }

  predicate Stored(w: World, draft: Id) {
    forall n :: n in FilesOf(w, draft) ==>
      && FilesOf(w, draft)[n].after in w.checkpoints && FilesOf(w, draft)[n].id in w.issued
      && FilesOf(w, draft)[n].branch.id in w.issued
  }

  ghost predicate ClientSound(check: Check, w: World, client: nat) {
    match PhaseOf(w, client)
    case Idle => true
    case Storing(draft, e) =>
      Prepared(check, draft, FilesOf(w, draft), e) && e.id in w.issued && e.branch.id in w.issued
    case Checking(draft, e) =>
      Prepared(check, draft, FilesOf(w, draft), e) && e.id in w.issued && e.branch.id in w.issued
        && e.after in w.checkpoints
    case Linking(draft, e) =>
      Prepared(check, draft, FilesOf(w, draft), e) && e.id in w.issued && e.branch.id in w.issued
        && e.after in w.checkpoints
    case Flushing(draft, e) => Has(w, draft, e)
  }

  /** The record of the entry is in place. */
  predicate Has(w: World, draft: Id, e: Entry) {
    e.sequence in FilesOf(w, draft) && FilesOf(w, draft)[e.sequence] == e
  }

  ghost predicate DraftSound(check: Check, w: World, draft: Id) {
    Sequential(check, draft, FilesOf(w, draft)) && Stored(w, draft)
  }

  predicate Acknowledged(w: World) {
    forall a :: a in w.acknowledged ==> Has(w, a.0, a.1)
  }

  ghost predicate Sound(check: Check, w: World) {
    && (forall draft :: DraftSound(check, w, draft))
    && (forall client :: ClientSound(check, w, client))
    && Acknowledged(w)
  }

  /** Records are never removed or altered. */
  ghost predicate Extends(w: World, t: World) {
    forall draft, n :: n in FilesOf(w, draft) ==> n in FilesOf(t, draft) && FilesOf(t, draft)[n] == FilesOf(w, draft)[n]
  }

  /** A sequential journal is read back, whole. */
  lemma SequentialIsRead(check: Check, draft: Id, files: Files) returns (es: seq<Entry>)
    requires Sequential(check, draft, files)
    ensures files == Numbered(es) && Legal(check, draft, es) && Entries(draft, files) == Some(es)
  {
    es :| files == Numbered(es) && Legal(check, draft, es);
    LegalIsChained(check, draft, es);
    LegalInDraft(check, draft, es);
    EntriesIffChain(draft, files, es);
  }

  lemma PreparedExtends(check: Check, draft: Id, files: Files, more: Files, e: Entry)
    requires Prepared(check, draft, files, e)
    requires forall n :: n in files ==> n in more && more[n] == files[n]
    ensures Prepared(check, draft, more, e)
  {
    hide Legal, Published;
    var es :| Legal(check, draft, es) && Published(check, draft, es, e) && InPlace(files, es, |es|);
    assert InPlace(more, es, |es|);
  }

  /** Of two journals in the same files, the one with all of them is the longer. */
  lemma InPlacePrefix(now: seq<Entry>, es: seq<Entry>)
    requires InPlace(Numbered(now), es, |es|)
    ensures es <= now
  {
    if es != [] { assert |es| in Numbered(now); }
    forall i | 0 <= i < |es| ensures es[i] == now[i] { assert i + 1 in Numbered(now); assert es[i + 1 - 1] == es[i]; }
  }

  lemma NumberedAppend(es: seq<Entry>, e: Entry)
    ensures Numbered(es + [e]) == Numbered(es)[|es| + 1 := e]
  {
  }

  lemma PreparedMatches(check: Check, draft: Id, now: seq<Entry>, e: Entry)
    requires Prepared(check, draft, Numbered(now), e) && e.sequence !in Numbered(now)
    ensures Published(check, draft, now, e) && e.sequence == |now| + 1
  {
    hide Legal, Published, Numbered, InPlace;
    var es :| Legal(check, draft, es) && Published(check, draft, es, e) && InPlace(Numbered(now), es, |es|);
    PublishedShape(check, draft, es, e);
    InPlacePrefix(now, es);
    FreeNumber(now, |es|);
    assert es == now;
  }

  /** A prepared entry whose number is free follows the journal as it is now. */
  lemma PreparedIsNext(check: Check, draft: Id, files: Files, e: Entry)
    requires Sequential(check, draft, files) && Prepared(check, draft, files, e) && e.sequence !in files
    ensures Sequential(check, draft, files[e.sequence := e])
  {
    hide Legal, Published, Prepared, Numbered;
    var now :| files == Numbered(now) && Legal(check, draft, now);
    PreparedMatches(check, draft, now, e);
    LegalExtends(check, draft, now, e);
    NumberedAppend(now, e);
  }

  lemma FreeNumber(now: seq<Entry>, n: nat)
    requires n <= |now| && n + 1 !in Numbered(now)
    ensures n == |now|
  {
  }

  lemma NumberedInPlace(es: seq<Entry>)
    ensures InPlace(Numbered(es), es, |es|)
  {
  }

  lemma NumberedIssued(w: World, draft: Id, es: seq<Entry>)
    requires FilesOf(w, draft) == Numbered(es) && Stored(w, draft)
    ensures forall i :: 0 <= i < |es| ==>
      es[i].id in w.issued && es[i].branch.id in w.issued && es[i].after in w.checkpoints
  {
    forall i | 0 <= i < |es|
      ensures es[i].id in w.issued && es[i].branch.id in w.issued && es[i].after in w.checkpoints
    {
      assert i + 1 in Numbered(es);
      assert Numbered(es)[i + 1] == es[i + 1 - 1];
    }
  }

  lemma BegunPrepares(check: Check, w: World, client: nat, request: Request, given: Given)
    requires DraftSound(check, w, request.draft) && Enabled(w, Begin(client, request, given))
    ensures ClientSound(check, Begun(check, w, client, request, given), client)
  {
    var files := FilesOf(w, request.draft);
    hide Legal, Dispatch, Entries, Numbered, InPlace, Stored, Published;
    var es := SequentialIsRead(check, request.draft, files);
    NumberedInPlace(es);
    NumberedIssued(w, request.draft, es);
    DispatchBranch(check, es, request, given);
    var r := Dispatch(check, es, request, given);
    if r.Commit? {
      assert Proper(es, request, given);
      DispatchPublishes(check, request.draft, es, request, given);
      assert Prepared(check, request.draft, files, r.entry);
    }
  }

  lemma DispatchPublishes(check: Check, draft: Id, es: seq<Entry>, request: Request, given: Given)
    requires request.draft == draft && Proper(es, request, given) && Dispatch(check, es, request, given).Commit?
    ensures var e := Dispatch(check, es, request, given).entry;
      Published(check, draft, es, e) && e.id == given.entry
  {
    hide Proper;
  }

  lemma OthersStaySound(check: Check, w: World, t: World, client: nat)
    requires ClientSound(check, w, client) && PhaseOf(t, client) == PhaseOf(w, client)
    requires Extends(w, t) && w.issued <= t.issued && w.checkpoints <= t.checkpoints
    ensures ClientSound(check, t, client)
  {
    var p := PhaseOf(w, client);
    if !p.Idle? && !p.Flushing? {
      PreparedExtends(check, p.draft, FilesOf(w, p.draft), FilesOf(t, p.draft), p.entry);
    }
  }

  lemma StepKeepsClients(check: Check, w: World, act: Act, client: nat)
    requires Sound(check, w) && Enabled(w, act)
    ensures ClientSound(check, Next(check, w, act), client)
  {
    var t := Next(check, w, act);
    StepExtends(check, w, act);
    assert ClientSound(check, w, client);
    if act.client != client {
      OthersStaySound(check, w, t, client);
    } else if act.Begin? {
      assert DraftSound(check, w, act.request.draft);
      BegunPrepares(check, w, client, act.request, act.given);
    }
  }

  lemma LinkKeepsDraft(check: Check, w: World, client: nat, draft: Id)
    requires DraftSound(check, w, draft) && ClientSound(check, w, client) && PhaseOf(w, client).Linking?
    ensures DraftSound(check, Linked(w, client), draft)
  {
    hide Prepared, Sequential;
    var p := PhaseOf(w, client);
    if p.draft == draft && p.entry.sequence !in FilesOf(w, draft) {
      PreparedIsNext(check, draft, FilesOf(w, draft), p.entry);
    }
  }

  lemma StepKeepsDraft(check: Check, w: World, act: Act, draft: Id)
    requires Sound(check, w) && Enabled(w, act)
    ensures DraftSound(check, Next(check, w, act), draft)
  {
    assert DraftSound(check, w, draft);
    assert ClientSound(check, w, act.client);
    hide Sound, Prepared, Sequential, Dispatch, Entries, ClientSound;
    match act
    case Link(client) => LinkKeepsDraft(check, w, client, draft);
    case _ => assert FilesOf(Next(check, w, act), draft) == FilesOf(w, draft);
  }

  /** No step of any instance removes or alters a record, and issued identifiers and checkpoints
      only grow. */
  lemma StepExtends(check: Check, w: World, act: Act)
    requires Enabled(w, act)
    ensures var t := Next(check, w, act);
      Extends(w, t) && w.issued <= t.issued && w.checkpoints <= t.checkpoints && w.acknowledged <= t.acknowledged
    ensures forall other :: other != act.client ==> PhaseOf(Next(check, w, act), other) == PhaseOf(w, other)
  {
  }

  lemma StepKeepsSound(check: Check, w: World, act: Act)
    requires Sound(check, w) && Enabled(w, act)
    ensures Sound(check, Next(check, w, act))
  {
    forall draft { StepKeepsDraft(check, w, act, draft); }
    forall client { StepKeepsClients(check, w, act, client); }
    hide DraftSound, ClientSound;
    StepAcknowledges(check, w, act);
  }

  lemma StepAcknowledges(check: Check, w: World, act: Act)
    requires Sound(check, w) && Enabled(w, act)
    ensures Acknowledged(Next(check, w, act))
  {
    assert ClientSound(check, w, act.client);
    hide DraftSound, Dispatch, Entries, Prepared;
    StepExtends(check, w, act);
  }

  /** Over every interleaving of any number of instances, with crashes anywhere: every journal is
      one that commands dispatched one after another would have published, no record is lost or
      altered, and every acknowledged entry is in place. */
  lemma {:induction false} RacesAreSequential(check: Check, w: World, acts: seq<Act>)
    requires Sound(check, w) && Runs(check, w, acts)
    ensures Sound(check, After(check, w, acts)) && Extends(w, After(check, w, acts))
    ensures w.acknowledged <= After(check, w, acts).acknowledged
    decreases |acts|
  {
    if acts != [] {
      StepKeepsSound(check, w, acts[0]);
      StepExtends(check, w, acts[0]);
      hide Sound, Next;
      RacesAreSequential(check, Next(check, w, acts[0]), acts[1..]);
    }
  }

  lemma NumberedAt(es: seq<Entry>, e: Entry)
    requires Chained(es) && e.sequence in Numbered(es) && Numbered(es)[e.sequence] == e
    ensures 1 <= e.sequence <= |es| && es[e.sequence - 1] == e
  {
  }

  lemma HasIsRead(check: Check, w: World, draft: Id, e: Entry) returns (es: seq<Entry>)
    requires Sound(check, w) && Has(w, draft, e)
    ensures Entries(draft, FilesOf(w, draft)) == Some(es) && Legal(check, draft, es)
    ensures 1 <= e.sequence <= |es| && es[e.sequence - 1] == e
  {
    SoundDraft(check, w, draft);
    hide Sound, Legal, Entries, Sequential, Numbered, Chained;
    es := SequentialIsRead(check, draft, FilesOf(w, draft));
    LegalIsChained(check, draft, es);
    NumberedAt(es, e);
  }

  lemma RepliesOnly(check: Check, w: World, client: nat, request: Request, given: Given, es: seq<Entry>)
    requires Enabled(w, Begin(client, request, given))
    requires Entries(request.draft, FilesOf(w, request.draft)) == Some(es)
    requires !Dispatch(check, es, request, given).Commit?
    ensures PhaseOf(Next(check, w, Begin(client, request, given)), client).Idle?
  {
    hide Dispatch, Entries;
  }

  /** A retry of a request whose record is in place, reported or not, publishes nothing, now or
      after any other steps; it is answered with the record's own entry, or if it opened the draft
      with the entry that the opening names. */
  lemma RetryAnswersOwnEntry(check: Check, w: World, acts: seq<Act>, e: Entry, client: nat, given: Given)
    requires Sound(check, w) && Has(w, e.operation.draft, e) && Runs(check, w, acts)
    requires Enabled(After(check, w, acts), Begin(client, e.operation, given))
    ensures var t := After(check, w, acts);
      var r := Entries(e.operation.draft, FilesOf(t, e.operation.draft));
      && r.Some? && 1 <= e.sequence <= |r.value| && r.value[e.sequence - 1] == e
      && PhaseOf(Next(check, t, Begin(client, e.operation, given)), client).Idle?
      && (Dispatch(check, r.value, e.operation, given) == Answer(r.value[..e.sequence]) <==>
            (e.operation.command.Open? ==>
               e.operation.command.at == Some(e.id) || (e.operation.command.at == None && e.sequence == |r.value|)))
  {
    hide Sound, Legal, Dispatch, Entries, Next, Enabled;
    var t := After(check, w, acts);
    RacesAreSequential(check, w, acts);
    assert Has(t, e.operation.draft, e);
    hide *;
    var es := HasIsRead(check, t, e.operation.draft, e);
    ReplayAnswersOwnEntry(check, e.operation.draft, es, e.sequence - 1, given);
    RepliesOnly(check, t, client, e.operation, given, es);
  }

  /** What that means for a reader: the journal is accepted, gapless, each identifier and request
      identifier occurs once, every content it names is stored, and both stacks are chained. */
  lemma RacedJournalIsSound(check: Check, acts: seq<Act>, draft: Id)
    requires Runs(check, EMPTY, acts)
    ensures var w := After(check, EMPTY, acts);
      var r := Entries(draft, FilesOf(w, draft));
      && r.Some? && Chained(r.value) && Unique(r.value) && StacksSound(r.value)
      && (forall i :: 0 <= i < |r.value| ==> r.value[i].after in w.checkpoints && r.value[i].before in w.checkpoints)
  {
    hide Legal, Sound, StacksSound, Sequential, Stored, Numbered, Runs, After, Entries;
    EmptyIsSound(check);
    RacesAreSequential(check, EMPTY, acts);
    var w := After(check, EMPTY, acts);
    SoundDraft(check, w, draft);
    var es := SequentialIsRead(check, draft, FilesOf(w, draft));
    LegalIsChained(check, draft, es);
    LegalIsStacked(check, draft, es);
    NumberedIssued(w, draft, es);
    FirstStartsClean(check, draft, es);
    forall i | 0 <= i < |es| ensures es[i].before in w.checkpoints {
      assert LinkedAt(es, i);
    }
  }

  lemma SoundDraft(check: Check, w: World, draft: Id)
    requires Sound(check, w)
    ensures Sequential(check, draft, FilesOf(w, draft)) && Stored(w, draft)
  {
    assert DraftSound(check, w, draft);
  }

  lemma FirstStartsClean(check: Check, draft: Id, es: seq<Entry>)
    requires Legal(check, draft, es)
    ensures es != [] ==> es[0].before == es[0].after
  {
    if es != [] {
      assert Published(check, draft, es[..0], es[0]);
      PublishedShape(check, draft, es[..0], es[0]);
    }
  }

  lemma EmptyIsSound(check: Check)
    ensures Sound(check, EMPTY)
  {
    forall draft ensures DraftSound(check, EMPTY, draft) {
      assert Numbered([]) == map[];
      assert Legal(check, draft, []);
    }
  }
}
