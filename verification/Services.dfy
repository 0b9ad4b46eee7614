/** The application service: one method per lock-held region of a run. */
module Services {
  import opened Wrappers
  import opened Attempts
  import opened Store
  import opened Lifecycle
  import opened RunEffects

  class ApplicationServices {
    const store: PersistenceStore
    var pendingAttempts: map<Id, Record>
    var activeRunId: Option<Id>
    var cancelRequested: bool
    /** Where the active execution's own frame stands. */
    var phase: Phase
    ghost var outcomes: map<Id, Outcome>
    ghost var acknowledged: set<Id>

    ghost function State(): Session
      reads this, store
    {
      Session(store.Snapshot(), phase, pendingAttempts, outcomes, acknowledged)
    }

    /** The service is busy exactly while an execution has not left. */
    ghost predicate Valid()
      reads this
    {
      match phase
      case Idle => activeRunId == None && !cancelRequested
      case _ => activeRunId.Some?
    }

    constructor (store: PersistenceStore)
      ensures Valid() && this.store == store && phase == Idle && pendingAttempts == map[]
    {
      this.store := store;
      pendingAttempts, activeRunId, cancelRequested, phase := map[], None, false, Idle;
      outcomes, acknowledged := map[], {};
    }

    /** `_record_attempt`. */
    method RecordAttempt(r: Record, fault: Fault) returns (w: Result<Record, StoreError>)
      modifies store, this`pendingAttempts
      ensures (State(), w) == Noted(old(State()), r, fault)
    {
      pendingAttempts := pendingAttempts[IdOf(r) := r];
      w := store.RecordAttempt(r, fault);
      if w.Success? { pendingAttempts := pendingAttempts - {IdOf(r)}; }
      assert old(pendingAttempts)[IdOf(r) := r] - {IdOf(r)} == old(pendingAttempts) - {IdOf(r)};
    }

    /** `_cancelled_attempt`. */
    method CancelledAttempt(r: Record) returns (cancelled: bool)
      ensures cancelled == IsCancelled(State(), r)
    {
      if IdOf(r) in pendingAttempts { return pendingAttempts[IdOf(r)].state == Cancelled; }
      var durable := store.ReadAttemptManifest(IdOf(r));
      return durable.Success? && durable.value.Some? && durable.value.value.state == Cancelled;
    }

    /** Admission: refused while another run is still executing. */
    method AdmitRun(attempt: Record, now: nat, fault: Fault, auditFault: Fault) returns (busy: bool)
      requires Valid()
      modifies store, this
      ensures Valid() && (busy <==> old(activeRunId).Some?)
      ensures State() == if busy then old(State()) else Admit(old(State()), attempt, now, fault, auditFault)
    {
      if activeRunId.Some? { return true; }
      var w := RecordAttempt(attempt, fault);
      if w.Failure? {
        var _ := RecordAttempt(FailedRecord(attempt, now, None), auditFault);
        outcomes := outcomes[IdOf(attempt) := PersistenceFailed];
        return false;
      }
      activeRunId, cancelRequested := Some(attempt.identity.run), false;
      phase := Admission(attempt);
      return false;
    }

    method BeginRunning(fault: Fault)
      requires Valid() && phase.Admission?
      modifies store, this
      ensures Valid() && State() == MarkRunning(old(State()), fault)
    {
      var attempt := phase.attempt;
      var cancelled := CancelledAttempt(attempt);
      if cancelled { phase := Raised(attempt, false, None, RunCancelled); return; }
      var w := RecordAttempt(attempt.(state := Running), fault);
      phase := if w.Success? then Executing(w.value) else Raised(attempt, false, None, Reraised);
    }

    method PublishTerminal(now: nat, saveFault: Fault, fault: Fault)
      requires Valid() && phase.Returned?
      modifies store, this
      ensures Valid() && State() == Publish(old(State()), now, saveFault, fault)
    {
      var attempt, event := phase.attempt, phase.event;
      var cancelled := CancelledAttempt(attempt);
      if cancelled { phase := Raised(attempt, false, None, RunCancelled); return; }
      match event
      case CancelledEvent =>
        var w := RecordAttempt(CancelledRecord(attempt, now), fault);
        phase := if w.Success? then Raised(w.value, false, None, RunCancelled)
                 else Raised(attempt, false, None, Reraised);
      case FailedEvent => phase := Raised(attempt, false, None, RunFailed);
      case UnexpectedEvent => phase := Raised(attempt, true, None, Reraised);
      case ResultEvent(row, publishable) =>
        if !publishable { phase := Raised(attempt, true, Some(row.artifact), Reraised); return; }
        var saved := store.SaveRun(row, saveFault);
        if !saved { phase := Raised(attempt, true, Some(row.artifact), Reraised); return; }
        var w := RecordAttempt(CompletedRecord(attempt, now, row.artifact), fault);
        phase := if w.Success? then Leaving(attempt, View) else Raised(attempt, true, Some(row.artifact), Reraised);
    }

    method HandleError(now: nat, fault: Fault)
      requires Valid() && phase.Raised?
      modifies store, this
      ensures Valid() && State() == Handle(old(State()), now, fault)
    {
      var attempt, publishing, error := phase.attempt, phase.publishing, phase.error;
      var cancelled := CancelledAttempt(attempt);
      if cancelled { phase := Leaving(attempt, RunCancelled); return; }
      var w := RecordAttempt(FailedRecord(attempt, now, phase.artifact), fault);
      phase := Leaving(attempt, if w.Failure? || publishing then PersistenceFailed else error);
    }

    method LeaveRun() returns (outcome: Outcome)
      requires Valid() && phase.Leaving?
      modifies this
      ensures Valid() && State() == Leave(old(State())) && outcome == old(phase).outcome
    {
      outcome := phase.outcome;
      outcomes := outcomes[IdOf(phase.attempt) := outcome];
      activeRunId, cancelRequested, phase := None, false, Idle;
    }

    /** The run a cancel call addresses, from the listing. */
    method AddressedRun(target: Option<Id>, attempts: map<Id, Record>) returns (run: Option<Id>)
      requires forall id :: At(attempts, id) == Durable(store.Snapshot(), id)
      ensures Meant(store.Snapshot(), target, activeRunId, run)
    {
      hide Durable;
      ListedIsOpen(store.Snapshot(), attempts);
      run := if target.Some? then target else activeRunId;
      var open := set id | id in attempts && !Terminal(attempts[id].state);
      if run.None? && open != {} {
        var newest := Last(attempts, open);
        assert IsNewest(store.Snapshot(), newest);
        run := Some(attempts[newest].identity.run);
      } else if run.None? {
        forall id ensures !Open(store.Snapshot(), id) {
          assert id !in open;
        }
      }
    }

    /** The first open attempt of a run, from the listing. */
    method FirstOpen(run: Option<Id>, attempts: map<Id, Record>) returns (r: Option<Id>)
      requires forall id :: At(attempts, id) == Durable(store.Snapshot(), id)
      ensures r.None? <==> OpenAttempts(store.Snapshot(), run) == {}
      ensures r.Some? ==> IsFirstOpen(store.Snapshot(), run, r.value) && r.value in attempts
    {
      hide Durable;
      ListedIsOpen(store.Snapshot(), attempts);
      var matching := set id | id in attempts && !Terminal(attempts[id].state)
        && Some(attempts[id].identity.run) == run;
      assert matching == OpenAttempts(store.Snapshot(), run);
      if matching == {} { return None; }
      var id := First(attempts, matching);
      return Some(id);
    }

    /** `cancel_run`: without a target it is the active run that is meant, and without one the run
        of the newest open attempt. The event is set before the durable record is closed; a run with
        no open attempt is left alone. */
    method CancelRun(target: Option<Id>, now: nat, fault: Fault) returns (run: Option<Id>, closed: Option<Record>)
      requires Valid() && Consistent(store.Snapshot())
      modifies store, this
      ensures Valid() && Meant(old(store.Snapshot()), target, old(activeRunId), run)
      ensures if OpenAttempts(old(store.Snapshot()), run) == {} then State() == old(State()) && closed == None
        else exists id :: && IsFirstOpen(old(store.Snapshot()), run, id)
                          && State() == Cancel(old(State()), id, now, fault)
      ensures OpenAttempts(old(store.Snapshot()), run) != {} ==> (closed.Some? <==> fault == NoFault)
      ensures closed.Some? ==>
        && IsFirstOpen(old(store.Snapshot()), run, IdOf(closed.value)) && IdOf(closed.value) in acknowledged
        && Durable(store.Snapshot(), IdOf(closed.value)) == closed
        && closed.value.state == Cancelled && closed.value.terminalAt == Some(now)
    {
      hide Durable, Consistent, Meant, OpenAttempts;
      var attempts := store.ListAttempts();
      run := AddressedRun(target, attempts);
      if run.Some? && run == activeRunId { cancelRequested := true; }
      var first := FirstOpen(run, attempts);
      if first.None? { return run, None; }
      var id := first.value;
      CancelledIsRecorded(store.Snapshot(), id, now, fault);
      var w := RecordAttempt(CancelledRecord(attempts[id], now), fault);
      if w.Success? && w.value.state == Cancelled { acknowledged := acknowledged + {id}; }
      assert At(attempts, id) == Durable(old(store.Snapshot()), id);
      assert State() == Cancel(old(State()), id, now, fault);
      closed := if w.Success? then Some(w.value) else None;
    }
  }

  /** What a cancel call's write does to an open attempt. */
  lemma CancelledIsRecorded(d: Disk, id: Id, now: nat, fault: Fault)
    requires Consistent(d) && Open(d, id)
    ensures var r := CancelledRecord(Durable(d, id).value, now);
      var (d', w) := Recorded(d, r, fault);
      && IdOf(r) == id && (w.Success? <==> fault == NoFault)
      && (w.Success? ==> w.value == r && Durable(d', id) == Some(r))
  {
    var r := CancelledRecord(Durable(d, id).value, now);
    assert IdOf(r) == id;
    if fault == NoFault { RecordedSucceeds(d, r); } else { CutWrite(d, r, fault); }
  }

  /** The order of a listing: by admission, then by identifier. */
  predicate Listed(a: Record, b: Record) {
    a.identity.admittedAt < b.identity.admittedAt
    || (a.identity.admittedAt == b.identity.admittedAt && IdOf(a) <= IdOf(b))
  }

  predicate Earlier(d: Disk, a: Id, b: Id) {
    Durable(d, a).Some? && Durable(d, b).Some? && Listed(Durable(d, a).value, Durable(d, b).value)
  }

  /** The open attempts of a run. */
  ghost function OpenAttempts(d: Disk, run: Option<Id>): set<Id> {
    set id | id in d.manifests.Keys + d.legacy.Keys && Open(d, id) && Some(Durable(d, id).value.identity.run) == run
  }

  /** The attempt that a cancel call closes: of the open ones of the run the first in a listing. */
  ghost predicate IsFirstOpen(d: Disk, run: Option<Id>, id: Id) {
    id in OpenAttempts(d, run) && Open(d, id) && forall k :: k in OpenAttempts(d, run) ==> Earlier(d, id, k)
  }

  /** The run that a cancel call addresses. */
  ghost predicate Meant(d: Disk, target: Option<Id>, active: Option<Id>, run: Option<Id>) {
    if target.Some? then run == target
    else if active.Some? then run == active
    else
      match run
      case None => forall id :: !Open(d, id)
      case Some(r) => exists id :: IsNewest(d, id) && Durable(d, id).value.identity.run == r
  }

  /** The open attempt that comes last in a listing. */
  ghost predicate IsNewest(d: Disk, id: Id) {
    Open(d, id) && forall k :: Open(d, k) ==> Earlier(d, k, id)
  }

  lemma ListedIsOpen(d: Disk, attempts: map<Id, Record>)
    requires forall id :: At(attempts, id) == Durable(d, id)
    ensures forall id :: id in attempts && !Terminal(attempts[id].state) <==> Open(d, id)
    ensures forall id :: Open(d, id) ==> id in d.manifests.Keys + d.legacy.Keys && Durable(d, id) == Some(attempts[id])
  {
    forall id ensures id in attempts && !Terminal(attempts[id].state) <==> Open(d, id) {
      assert At(attempts, id) == Durable(d, id);
    }
    forall id | Open(d, id) ensures Durable(d, id) == Some(attempts[id]) { assert At(attempts, id) == Durable(d, id); }
  }

  method First(attempts: map<Id, Record>, among: set<Id>) returns (first: Id)
    requires among != {} && among <= attempts.Keys
    ensures first in among && forall k :: k in among ==> Listed(attempts[first], attempts[k])
  {
    first :| first in among;
    var rest := among - {first};
    while rest != {}
      invariant rest <= among && first in among
      invariant forall k :: k in among - rest ==> Listed(attempts[first], attempts[k])
      decreases rest
    {
      var k :| k in rest;
      if !Listed(attempts[first], attempts[k]) { first := k; }
      rest := rest - {k};
    }
    assert among - rest == among;
  }

  method Last(attempts: map<Id, Record>, among: set<Id>) returns (last: Id)
    requires among != {} && among <= attempts.Keys
    ensures last in among && forall k :: k in among ==> Listed(attempts[k], attempts[last])
  {
    last :| last in among;
    var rest := among - {last};
    while rest != {}
      invariant rest <= among && last in among
      invariant forall k :: k in among - rest ==> Listed(attempts[k], attempts[last])
      decreases rest
    {
      var k :| k in rest;
      if !Listed(attempts[k], attempts[last]) { last := k; }
      rest := rest - {k};
    }
    assert among - rest == among;
  }
}
