/** The history directory, a repository instance over it, and the service that commits to it. */
module HistoryRepository {
  import opened Wrappers
  import opened History
  import opened HistoryRaces

  /** What is on disk: checkpoint files by name with the document they decode to, and the record
      files of each draft. A file's content need not match its name. */
  class HistoryDirectory {
    var checkpoints: map<Digest, Document>
    var journals: map<Id, Files>

    constructor ()
      ensures checkpoints == map[] && journals == map[]
    {
      checkpoints, journals := map[], map[];
    }

    ghost function Records(draft: Id): Files
      reads this
    {
      if draft in journals then journals[draft] else map[]
    }

    /** `publish`: a name in use rejects the writer and is never overwritten. */
    method PublishCheckpoint(name: Digest, document: Document) returns (created: bool)
      modifies this`checkpoints
      ensures created <==> name !in old(checkpoints)
      ensures checkpoints == if created then old(checkpoints)[name := document] else old(checkpoints)
    {
      if name in checkpoints { return false; }
      checkpoints := checkpoints[name := document];
      return true;
    }

    method PublishRecord(draft: Id, number: nat, entry: Entry) returns (created: bool)
      modifies this`journals
      ensures created <==> number !in old(Records(draft))
      ensures forall d ::
        Records(d) == (if d == draft && created then old(Records(draft))[number := entry] else old(Records(d)))
    {
      var files := if draft in journals then journals[draft] else map[];
      if number in files { return false; }
      journals := journals[draft := files[number := entry]];
      return true;
    }
  }

  const CACHED_DOCUMENTS: nat := 64

  /** The cached documents, oldest use first. */
  type Cache = seq<(Digest, Document)>

  predicate CacheSound(cache: Cache) {
    && |cache| <= CACHED_DOCUMENTS
    && forall i :: 0 <= i < |cache| ==> cache[i].0 == DigestOf(cache[i].1)
  }

  /** The cache without an entry. */
  function Without(cache: Cache, name: Digest): (r: Cache)
    ensures |r| <= |cache| && (forall x :: x in r ==> x in cache && x.0 != name)
    ensures forall x :: x in cache && x.0 != name ==> x in r
    ensures name in Names(cache) ==> |r| < |cache|
  {
    if cache == [] then []
    else if cache[0].0 == name then Without(cache[1..], name)
    else [cache[0]] + Without(cache[1..], name)
  }

  function Names(cache: Cache): set<Digest> {
    set x | x in cache :: x.0
  }

  class JsonHistoryRepository {
    const directory: HistoryDirectory
    var documents: Cache

    ghost predicate Valid()
      reads this
    {
      CacheSound(documents)
    }

    /** The checkpoint file is there and its bytes have the hash it is named by. */
    ghost predicate Intact(name: Digest)
      reads this, directory
    {
      name in directory.checkpoints && DigestOf(directory.checkpoints[name]) == name
    }

    constructor (directory: HistoryDirectory)
      ensures Valid() && this.directory == directory
    {
      this.directory, documents := directory, [];
    }

    method CacheDocument(name: Digest, document: Document)
      requires Valid() && name == DigestOf(document)
      modifies this`documents
      ensures Valid() && documents != [] && documents[|documents| - 1] == (name, document)
    {
      var others := Without(documents, name);
      forall i | 0 <= i < |others| ensures others[i].0 == DigestOf(others[i].1) { assert others[i] in documents; }
      documents := others + [(name, document)];
      while |documents| > CACHED_DOCUMENTS
        invariant documents != [] && documents[|documents| - 1] == (name, document)
        invariant forall i :: 0 <= i < |documents| ==> documents[i].0 == DigestOf(documents[i].1)
        decreases |documents|
      {
        documents := documents[1..];
      }
    }

    /** `checkpoint`: content is stored once; an existing copy is verified before it is reused. */
    method Checkpoint(document: Document) returns (r: Option<Digest>)
      requires Valid()
      modifies this`documents, directory`checkpoints
      ensures Valid()
      ensures var name := DigestOf(document);
        var clash := name in old(directory.checkpoints) && old(directory.checkpoints)[name] != document;
        r == (if clash then None else Some(name))
        && directory.checkpoints ==
             if clash then old(directory.checkpoints) else old(directory.checkpoints)[name := document]
    {
      var name := DigestOf(document);
      if name in directory.checkpoints {
        if directory.checkpoints[name] != document { return None; }
      } else {
        var _ := directory.PublishCheckpoint(name, document);
      }
      CacheDocument(name, document);
      return Some(name);
    }

    /** `document`: the file's bytes are verified even when the decoded document is cached, and
        what is returned always has the hash asked for. */
    method GetDocument(name: Digest) returns (r: Option<Document>)
      requires Valid()
      modifies this`documents
      ensures Valid() && r == if Intact(name) then Some(name.document) else None
    {
      if name !in directory.checkpoints { return None; }
      var raw := directory.checkpoints[name];
      if DigestOf(raw) != name { return None; }
      for i := 0 to |documents|
        invariant Valid() && documents == old(documents)
      {
        if documents[i].0 == name {
          var cached := documents[i].1;
          CacheDocument(name, cached);
          return Some(cached);
        }
      }
      CacheDocument(name, raw);
      return Some(raw);
    }

    /** `entries`: the journal, rejected when it has gaps, broken parentage, an unreadable head or
        another draft's head. */
    method ReadEntries(draft: Id) returns (r: Option<seq<Entry>>)
      requires Valid()
      modifies this`documents
      ensures Valid()
      ensures var es := Entries(draft, directory.Records(draft));
        r == if es.Some? && (es.value != [] ==> Intact(Last(es.value).after)) then es else None
    {
      var files := if draft in directory.journals then directory.journals[draft] else map[];
      var es: seq<Entry> := [];
      for n := 0 to |files|
        invariant Valid() && |es| == n && Scan(files, n) == Some(es)
      {
        if n + 1 !in files || !FitsNext(es, files[n + 1]) {
          ScanStops(files, n + 1, |files|);
          return None;
        }
        es := es + [files[n + 1]];
      }
      if es != [] {
        var head := GetDocument(Last(es).after);
        if head.None? || head.value.draft != draft { return None; }
      }
      return Some(es);
    }

    /** `append`: exactly the next record, or nothing. */
    method Append(draft: Id, entry: Entry) returns (ok: bool)
      requires Valid()
      modifies this`documents, directory`journals
      ensures Valid()
      ensures ok ==> var es := old(Entries(draft, directory.Records(draft)));
        && es.Some? && entry.sequence == |es.value| + 1 && entry.sequence !in old(directory.Records(draft))
        && entry.parent == if es.value == [] then None else Some(Last(es.value).id)
      ensures forall d | d != draft || !ok :: directory.Records(d) == old(directory.Records(d))
      ensures ok ==> directory.Records(draft) == old(directory.Records(draft))[entry.sequence := entry]
      ensures var es := old(Entries(draft, directory.Records(draft)));
        es.Some? && (es.value != [] ==> old(Intact(Last(es.value).after))) && FitsNext(es.value, entry) ==> ok
    {
      var es := ReadEntries(draft);
      if es.None? || entry.sequence != |es.value| + 1
         || entry.parent != (if es.value == [] then None else Some(Last(es.value).id)) {
        return false;
      }
      EntriesIffChain(draft, directory.Records(draft), es.value);
      ok := directory.PublishRecord(draft, entry.sequence, entry);
    }
  }

  lemma {:induction false} ScanStops(files: Files, n: nat, m: nat)
    requires n <= m && Scan(files, n).None?
    ensures Scan(files, m).None?
    decreases m - n
  {
    if n < m { ScanStops(files, n, m - 1); }
  }

  class HistoryService {
    const repository: JsonHistoryRepository

    constructor (repository: JsonHistoryRepository)
      ensures this.repository == repository
    {
      this.repository := repository;
    }

    /** Everything the journal names is stored intact. */
    ghost predicate Healthy(draft: Id)
      reads repository, repository.directory
    {
      var es := Entries(draft, repository.directory.Records(draft));
      && es.Some?
      && (forall i :: 0 <= i < |es.value| ==> repository.Intact(es.value[i].after))
      && (forall name :: name in repository.directory.checkpoints ==> repository.Intact(name))
    }

    /** `_commit`: the checkpoint is stored before the record is published. */
    method CommitEntry(draft: Id, e: Entry, ghost es: seq<Entry>)
      requires repository.Valid() && Healthy(draft)
      requires Entries(draft, repository.directory.Records(draft)) == Some(es)
      requires FitsNext(es, e) && e.after.document.draft == draft
      modifies repository`documents, repository.directory
      ensures repository.Valid() && Healthy(draft)
      ensures Entries(draft, repository.directory.Records(draft)) == Some(es + [e])
    {
      EntriesIffChain(draft, repository.directory.Records(draft), es);
      CommittedIsRead(draft, es, e);
      hide Entries, Numbered, Chained;
      var stored := repository.Checkpoint(e.after.document);
      assert stored.Some? && Healthy(draft) && repository.Intact(e.after);
      var ok := repository.Append(draft, e);
      hide FitsNext, Last;
      assert ok && repository.directory.Records(draft) == Numbered(es)[|es| + 1 := e];
    }

    /** `dispatch`: the journal afterwards is the journal before, with the published entry if there
        is one. */
    method DispatchRequest(check: Check, request: Request, given: Given) returns (outcome: Outcome)
      requires repository.Valid() && Healthy(request.draft)
      requires Proper(Entries(request.draft, repository.directory.Records(request.draft)).value, request, given)
      requires InDraft(request.draft, Entries(request.draft, repository.directory.Records(request.draft)).value)
      modifies repository`documents, repository.directory
      ensures repository.Valid() && Healthy(request.draft)
      ensures var es := old(Entries(request.draft, repository.directory.Records(request.draft))).value;
        && outcome == Dispatch(check, es, request, given)
        && Entries(request.draft, repository.directory.Records(request.draft))
             == Some(if outcome.Commit? then es + [outcome.entry] else es)
    {
      hide Entries, Dispatch, Proper, InDraft;
      var draft := request.draft;
      var es := repository.ReadEntries(draft);
      outcome := Dispatch(check, es.value, request, given);
      if !outcome.Commit? { return; }
      DispatchInDraft(check, draft, es.value, request, given);
      CommitEntry(draft, outcome.entry, es.value);
    }
  }

  lemma CommittedIsRead(draft: Id, es: seq<Entry>, e: Entry)
    requires Entries(draft, Numbered(es)) == Some(es) && FitsNext(es, e) && e.after.document.draft == draft
    ensures Entries(draft, Numbered(es)[|es| + 1 := e]) == Some(es + [e])
    ensures |es| + 1 !in Numbered(es)
  {
    EntriesIffChain(draft, Numbered(es), es);
    ChainAppends(es, e);
    NumberedAppend(es, e);
    EntriesIffChain(draft, Numbered(es + [e]), es + [e]);
  }
}
