/** The persistence store: JSON-first attempt records over a disposable index, startup
    reconciliation, index rebuild, and the last-valid query. */
module Store {
  import opened Wrappers
  import opened Attempts

  /** The last-valid filter: accepted statuses, and no indexed attempt of the run that is
      not completed and persisted. */
  predicate Eligible(d: Disk, row: RunRow) {
    && row.accepted
    && forall id :: id in d.attempts && d.attempts[id].identity.run == row.run ==>
         d.attempts[id].state == Completed && d.attempts[id].persisted
  }

  predicate Later(a: RunRow, b: RunRow) {
    a.createdAt > b.createdAt || (a.createdAt == b.createdAt && a.run >= b.run)
  }

  /** The record an abandoned attempt is closed with. */
  function Abandoned(r: Record, now: nat): Record {
    r.(state := Interrupted, terminalAt := Some(now), reason := Some("interrupted"))
  }

  class PersistenceStore {
    var manifests: map<Id, Record>
    var legacy: map<Id, Record>
    var artifacts: map<Id, RunRow>
    var attempts: map<Id, Record>
    var runs: map<Id, RunRow>

    function Snapshot(): Disk
      reads this
    {
      Disk(manifests, legacy, artifacts, attempts, runs)
    }

    constructor (d: Disk)
      ensures Snapshot() == d
    {
      manifests, legacy, artifacts, attempts, runs := d.manifests, d.legacy, d.artifacts, d.attempts, d.runs;
    }

    method ReadAttemptManifest(id: Id) returns (r: Result<Option<Record>, StoreError>)
      ensures r == Manifest(Snapshot(), id)
    {
      var winner: Option<Record> := None;
      if id in manifests { winner := Some(manifests[id]); }
      if id in legacy {
        var merged := Winner(winner, legacy[id]);
        if merged.Failure? { return Failure(merged.error); }
        winner := Some(merged.value);
      }
      return Success(winner);
    }

    /** `record_attempt`: resolve against the durable manifest, publish it, then commit the
        index; `fault` is where storage fails. */
    method RecordAttempt(attempt: Record, fault: Fault) returns (r: Result<Record, StoreError>)
      modifies this
      ensures (Snapshot(), r) == Recorded(old(Snapshot()), attempt, fault)
    {
      var id := attempt.identity.attempt;
      var indexed := if id in attempts then Some(attempts[id]) else None;
      var durable := ReadAttemptManifest(id);
      if durable.Failure? { return Failure(durable.error); }
      var winner := Winner(if durable.value.Some? then durable.value else indexed, attempt);
      if winner.Failure? { return winner; }
      if fault == BeforeReplace { return Failure(StorageFault); }
      if durable.value != Some(winner.value) { manifests := manifests[id := winner.value]; }
      if fault == BeforeCommit { return Failure(StorageFault); }
      attempts := attempts[id := winner.value];
      return winner;
    }

    /** `save_run`: the artifact first, then its row; a second row for a run is refused. */
    method SaveRun(row: RunRow, fault: Fault) returns (ok: bool)
      modifies this
      ensures (Snapshot(), ok) == Saved(old(Snapshot()), row, fault)
    {
      if fault == BeforeReplace { return false; }
      artifacts := artifacts[row.run := row];
      if fault == BeforeCommit || row.run in runs { return false; }
      runs := runs[row.run := row];
      return true;
    }

    /** `latest_valid_artifact_hash`: the newest eligible run of the case. */
    method LatestValid(caseId: Id) returns (r: Option<RunRow>)
      ensures r.None? ==> forall k :: k in runs && runs[k].caseId == caseId ==> !Eligible(Snapshot(), runs[k])
      ensures r.Some? ==> IsLatestValid(Snapshot(), caseId, r.value)
    {
      r := None;
      var pending := runs.Keys;
      while pending != {}
        invariant pending <= runs.Keys
        invariant r.None? ==>
          forall k :: k in runs.Keys - pending && runs[k].caseId == caseId ==> !Eligible(Snapshot(), runs[k])
        invariant r.Some? ==>
          && r.value.caseId == caseId && Eligible(Snapshot(), r.value)
          && (exists k :: k in runs && runs[k] == r.value)
          && forall k :: k in runs.Keys - pending && runs[k].caseId == caseId && Eligible(Snapshot(), runs[k]) ==>
               Later(r.value, runs[k])
        decreases pending
      {
        var k :| k in pending;
        pending := pending - {k};
        if runs[k].caseId == caseId && Eligible(Snapshot(), runs[k]) {
          if r.None? || Later(runs[k], r.value) { r := Some(runs[k]); }
        }
      }
      assert runs.Keys - pending == runs.Keys;
    }

    /** `list_attempts`: index rows, overridden by the manifests of either path. */
    method ListAttempts() returns (records: map<Id, Record>)
      requires Consistent(Snapshot())
      ensures forall id :: At(records, id) == Durable(Snapshot(), id)
    {
      MergedIsDurable(Snapshot());
      records := attempts + Merged(Snapshot());
    }

    /** `reconcile_startup_attempts`: every attempt left open is interrupted. */
    method ReconcileStartup(now: nat)
      requires Consistent(Snapshot())
      modifies this
      ensures Consistent(Snapshot()) && Forward(old(Snapshot()), Snapshot())
      ensures forall id :: Durable(Snapshot(), id).Some? <==> Durable(old(Snapshot()), id).Some?
      ensures forall id :: Durable(old(Snapshot()), id).Some? ==>
        var before := Durable(old(Snapshot()), id).value;
        Durable(Snapshot(), id) == Some(if Terminal(before.state) then before else Abandoned(before, now))
      ensures forall id :: Durable(Snapshot(), id).Some? ==>
        var after := Durable(Snapshot(), id).value;
        && Terminal(after.state)
        && (Durable(old(Snapshot()), id) == Some(after)
            || (after.state == Interrupted && after.terminalAt == Some(now)))
      ensures runs == old(runs) && artifacts == old(artifacts) && legacy == old(legacy)
    {
      hide Durable, Consistent, Recorded, Forward;
      var listed := ListAttempts();
      MergedIsDurable(Snapshot());
      assert forall id :: id in listed ==> Durable(Snapshot(), id) == Some(listed[id]) == At(Merged(Snapshot()), id);
      var open := set id | id in listed && !Terminal(listed[id].state);
      ghost var d0 := Snapshot();
      ForwardReflexive(d0);
      while open != {}
        invariant open <= listed.Keys && forall id :: id in open ==> !Terminal(listed[id].state)
        invariant Consistent(Snapshot()) && Forward(d0, Snapshot())
        invariant forall id :: id in open || id !in listed || Terminal(listed[id].state) ==>
          Durable(Snapshot(), id) == Durable(d0, id)
        invariant forall id :: id in listed && id !in open && !Terminal(listed[id].state) ==>
          Durable(Snapshot(), id) == Some(Abandoned(listed[id], now))
        invariant runs == old(runs) && artifacts == old(artifacts) && legacy == old(legacy)
        decreases open
      {
        var id :| id in open;
        ghost var d1 := Snapshot();
        RecordedKeeps(d1, Abandoned(listed[id], now), NoFault);
        ForwardTransitive(d0, d1, Recorded(d1, Abandoned(listed[id], now), NoFault).0);
        Closes(d1, listed[id], now);
        var _ := RecordAttempt(Abandoned(listed[id], now), NoFault);
        open := open - {id};
      }
    }

    /** First half of `rebuild_index_from_artifacts`: one commit per run row, which raises if the
        run has a row already; `budget` is how many commits happen before the process dies. */
    method RebuildRuns(budget: Option<nat>) returns (left: Option<nat>, finished: bool)
      modifies this`runs
      ensures old(runs).Keys <= runs.Keys <= old(runs).Keys + artifacts.Keys
      ensures forall k :: k in runs ==> runs[k] == if k in old(runs) then old(runs)[k] else artifacts[k]
      ensures finished ==> old(runs).Keys !! artifacts.Keys && runs == old(runs) + artifacts
      ensures budget.None? ==> left.None? && (finished <==> old(runs).Keys !! artifacts.Keys)
    {
      left := budget;
      var pending := artifacts.Keys;
      while pending != {}
        invariant pending <= artifacts.Keys && (budget.None? ==> left.None?)
        invariant runs.Keys == old(runs).Keys + (artifacts.Keys - pending)
        invariant forall k :: k in runs ==> runs[k] == if k in old(runs) then old(runs)[k] else artifacts[k]
        invariant old(runs).Keys !! artifacts.Keys - pending
        decreases pending
      {
        if left == Some(0) { return left, false; }
        var k :| k in pending;
        if k in runs { return left, false; }
        runs := runs[k := artifacts[k]];
        pending := pending - {k};
        left := if left.Some? then Some(left.value - 1) else None;
      }
      return left, true;
    }

    /** Second half: the merged manifest of every attempt, resolved against the row it has. */
    method RebuildAttempts(budget: Option<nat>) returns (finished: bool)
      requires Consistent(Snapshot())
      modifies this`attempts
      ensures old(attempts).Keys <= attempts.Keys
      ensures forall id :: id in attempts ==>
        At(old(attempts), id) == Some(attempts[id]) || Durable(Snapshot(), id) == Some(attempts[id])
      ensures finished ==> forall id :: At(attempts, id) == Durable(Snapshot(), id)
      ensures budget.None? ==> finished
    {
      hide Durable, Consistent, Winner;
      ghost var d0 := Snapshot();
      var found := Merged(Snapshot());
      var left, pending := budget, found.Keys;
      while pending != {}
        invariant pending <= found.Keys && (budget.None? ==> left.None?)
        invariant forall id :: RowIs(d0, attempts, pending, id)
        decreases pending
      {
        if left == Some(0) { RebuiltRows(d0, Snapshot(), pending); return false; }
        var id :| id in pending;
        RowGivesWay(d0, id);
        assert RowIs(d0, attempts, pending, id);
        ghost var before, open := attempts, pending;
        attempts := attempts[id := Winner(At(attempts, id), found[id]).value];
        pending := pending - {id};
        forall k ensures RowIs(d0, attempts, pending, k) { assert RowIs(d0, before, open, k); }
        left := if left.Some? then Some(left.value - 1) else None;
      }
      RebuiltRows(d0, Snapshot(), pending);
      return true;
    }

    /** `rebuild_index_from_artifacts`: all run rows first, then all attempts. It ends by itself
        exactly when no run has a row yet; so one that was cut cannot be repeated on its own index. */
    method RebuildIndex(budget: Option<nat>) returns (finished: bool)
      requires Consistent(Snapshot())
      modifies this`runs, this`attempts
      ensures old(runs).Keys <= runs.Keys <= old(runs).Keys + artifacts.Keys
      ensures forall k :: k in runs ==> runs[k] == if k in old(runs) then old(runs)[k] else artifacts[k]
      ensures old(attempts).Keys <= attempts.Keys
      ensures forall id :: id in attempts ==>
        At(old(attempts), id) == Some(attempts[id]) || Durable(Snapshot(), id) == Some(attempts[id])
      ensures budget.None? ==> (finished <==> old(runs).Keys !! artifacts.Keys)
      ensures finished ==>
        && old(runs).Keys !! artifacts.Keys && runs == old(runs) + artifacts
        && forall id :: At(attempts, id) == Durable(Snapshot(), id)
    {
      ghost var d0 := Snapshot();
      var left, runsDone := RebuildRuns(budget);
      RunRowsAside(d0, Snapshot());
      if !runsDone { return false; }
      finished := RebuildAttempts(left);
    }
  }

  function Saved(d: Disk, row: RunRow, fault: Fault): (Disk, bool) {
    if fault == BeforeReplace then (d, false)
    else
      var stored := d.(artifacts := d.artifacts[row.run := row]);
      if fault == BeforeCommit || row.run in d.runs then (stored, false)
      else (stored.(runs := stored.runs[row.run := row]), true)
  }

  /** A row is saved with its artifact, once: a second row for a run is refused, and its artifact is
      left behind, as it is when the write is cut before the row. */
  lemma SavedDoes(d: Disk, row: RunRow, fault: Fault)
    ensures var (d', saved) := Saved(d, row, fault);
      && (saved <==> fault == NoFault && row.run !in d.runs)
      && (forall k :: k in d.runs ==> k in d'.runs && d'.runs[k] == d.runs[k])
      && (forall k :: k in d'.runs && k !in d.runs ==> saved && k == row.run && d'.runs[k] == row)
      && (saved ==> row.run in d'.runs)
      && (if fault == BeforeReplace then d' == d else row.run in d'.artifacts && d'.artifacts[row.run] == row)
      && (forall k :: k != row.run ==> At(d'.attempts, k) == At(d.attempts, k)
                                       && (k in d'.artifacts <==> k in d.artifacts))
  {
  }

  /** The last valid run is the newest of the eligible ones of its case, and of several made at one
      time the one with the greatest identifier. */
  lemma LatestIsNewest(d: Disk, caseId: Id, row: RunRow, k: Id)
    requires IsLatestValid(d, caseId, row) && k in d.runs && d.runs[k].caseId == caseId && Eligible(d, d.runs[k])
    ensures d.runs[k].createdAt <= row.createdAt
    ensures d.runs[k].createdAt == row.createdAt ==> d.runs[k].run <= row.run
  {
  }

  predicate IsLatestValid(d: Disk, caseId: Id, row: RunRow) {
    && row.caseId == caseId && Eligible(d, row)
    && (exists k :: k in d.runs && d.runs[k] == row)
    && forall k :: k in d.runs && d.runs[k].caseId == caseId && Eligible(d, d.runs[k]) ==> Later(row, d.runs[k])
  }

  /** The merged manifest of every attempt that has one. */
  function Merged(d: Disk): map<Id, Record> {
    map id | id in d.manifests.Keys + d.legacy.Keys && Durable(d, id).Some? :: Durable(d, id).value
  }

  lemma MergedIsDurable(d: Disk)
    requires Consistent(d)
    ensures forall id :: At(Merged(d), id) == Durable(d, id)
    ensures forall id :: id in d.attempts ==> id in Merged(d)
    ensures forall id :: id in Merged(d) ==> Merged(d)[id].identity.attempt == id
  {
  }

  /** An index row is never ahead, so resolving the durable record against it gives the durable
      record. */
  lemma RowGivesWay(d: Disk, id: Id)
    requires Consistent(d) && id in Merged(d)
    ensures Winner(At(d.attempts, id), Merged(d)[id]) == Success(Merged(d)[id])
  {
  }

  /** The row of an attempt during a rebuild that has `pending` manifests to go. */
  ghost predicate RowIs(d: Disk, attempts: map<Id, Record>, pending: set<Id>, id: Id) {
    At(attempts, id) == if id in Merged(d) && id !in pending then Some(Merged(d)[id]) else At(d.attempts, id)
  }

  lemma RebuiltRows(d: Disk, d': Disk, pending: set<Id>)
    requires Consistent(d) && d' == d.(attempts := d'.attempts)
    requires forall id :: RowIs(d, d'.attempts, pending, id)
    ensures d.attempts.Keys <= d'.attempts.Keys
    ensures forall id :: id in d'.attempts ==>
      At(d.attempts, id) == Some(d'.attempts[id]) || Durable(d', id) == Some(d'.attempts[id])
    ensures pending == {} ==> forall id :: At(d'.attempts, id) == Durable(d', id)
  {
    hide Durable, Consistent, Merged;
    MergedIsDurable(d);
    IndexAside(d, d');
    forall id
      ensures id in d.attempts ==> id in d'.attempts
      ensures id in d'.attempts ==>
        At(d.attempts, id) == Some(d'.attempts[id]) || Durable(d', id) == Some(d'.attempts[id])
      ensures pending == {} ==> At(d'.attempts, id) == Durable(d', id)
    {
      assert RowIs(d, d'.attempts, pending, id) && At(Merged(d), id) == Durable(d, id);
    }
  }

  lemma IndexAside(d: Disk, d': Disk)
    requires Consistent(d) && d' == d.(attempts := d'.attempts)
    ensures forall id :: Durable(d', id) == Durable(d, id)
  {
    hide Manifest;
    forall id ensures Durable(d', id) == Durable(d, id) { SameManifests(d, d', id); }
  }

  lemma RunRowsAside(d: Disk, d': Disk)
    requires Consistent(d) && d' == d.(runs := d'.runs, artifacts := d'.artifacts)
    ensures Consistent(d') && forall id :: Durable(d', id) == Durable(d, id)
  {
    hide Manifest;
    forall id ensures Durable(d', id) == Durable(d, id) { SameManifests(d, d', id); }
  }

  lemma ForwardReflexive(d: Disk)
    ensures Forward(d, d)
  {
    hide Durable;
  }

  lemma ForwardTransitive(a: Disk, b: Disk, c: Disk)
    requires Forward(a, b) && Forward(b, c)
    ensures Forward(a, c)
  {
    hide Durable;
    forall id | Durable(a, id).Some?
      ensures Durable(c, id).Some? && Follows(Durable(a, id).value, Durable(c, id).value)
    {
      FollowsTransitive(Durable(a, id).value, Durable(b, id).value, Durable(c, id).value);
    }
  }

  lemma Closes(d: Disk, r: Record, now: nat)
    requires Consistent(d) && Durable(d, r.identity.attempt) == Some(r) && !Terminal(r.state)
    ensures Durable(Recorded(d, Abandoned(r, now), NoFault).0, r.identity.attempt) == Some(Abandoned(r, now))
  {
    RecordedSucceeds(d, Abandoned(r, now));
  }
}
