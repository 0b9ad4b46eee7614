/** The run lifecycle as its lock-held regions: what each does to the durable records, to
    the records retained in memory, and to the phase of the one active execution. */
module Lifecycle {
  import opened Wrappers
  import opened Attempts
  import opened Store
  import opened LastValid

  /** What an execution hands back: a worker's cancelled or failed event, a result (with
      whether its identity, hash and staging check out), or something unexpected. */
  datatype ExecutionEvent =
    | CancelledEvent
    | FailedEvent
    | UnexpectedEvent
    | ResultEvent(row: RunRow, publishable: bool)

  /** What `start_run` answers: a view, one of its rejections, or the exception of the execution
      or of the store as it was raised. */
  datatype Outcome = View | RunCancelled | RunFailed | PersistenceFailed | Reraised

  datatype Phase =
    | Idle
    | Admission(attempt: Record)
    | Executing(attempt: Record)
    | Returned(attempt: Record, event: ExecutionEvent)
    | Raised(attempt: Record, publishing: bool, artifact: Option<Id>, error: Outcome)
    | Leaving(attempt: Record, outcome: Outcome)

  /** `outcomes` and `acknowledged` record what `start_run` and `cancel_run` have answered. */
  datatype Session = Session(
    disk: Disk,
    phase: Phase,
    pending: map<Id, Record>,
    outcomes: map<Id, Outcome>,
    acknowledged: set<Id>)

  function IdOf(r: Record): Id { r.identity.attempt }

  /** `_record_attempt`: keep the record in memory until its durable write succeeds. */
  function Noted(s: Session, r: Record, fault: Fault): (Session, Result<Record, StoreError>) {
    var (disk, w) := Recorded(s.disk, r, fault);
    if w.Success? then (s.(disk := disk, pending := s.pending - {IdOf(r)}), w)
    else (s.(disk := disk, pending := s.pending[IdOf(r) := r]), w)
  }

  /** `_cancelled_attempt`: the record in memory if there is one, else the durable one. */
  predicate IsCancelled(s: Session, r: Record) {
    if IdOf(r) in s.pending then s.pending[IdOf(r)].state == Cancelled
    else Durable(s.disk, IdOf(r)).Some? && Durable(s.disk, IdOf(r)).value.state == Cancelled
  }

  function FailedRecord(r: Record, now: nat, artifact: Option<Id>): Record {
    r.(state := Failed, terminalAt := Some(now), reason := Some("failed"), artifact := artifact, persisted := false)
  }

  function CancelledRecord(r: Record, now: nat): Record {
    r.(state := Cancelled, terminalAt := Some(now), reason := Some("cancelled"))
  }

  function CompletedRecord(r: Record, now: nat, artifact: Id): Record {
    r.(state := Completed, terminalAt := Some(now), artifact := Some(artifact), persisted := true)
  }

  /** Admission under the lock: nothing executes unless the admission write succeeds. */
  function Admit(s: Session, attempt: Record, now: nat, fault: Fault, auditFault: Fault): Session {
    var (s1, r) := Noted(s, attempt, fault);
    if r.Success? then s1.(phase := Admission(attempt))
    else
      var s2 := Noted(s1, FailedRecord(attempt, now, None), auditFault).0;
      s2.(outcomes := s2.outcomes[IdOf(attempt) := PersistenceFailed])
  }

  function MarkRunning(s: Session, fault: Fault): Session
    requires s.phase.Admission?
  {
    var attempt := s.phase.attempt;
    if IsCancelled(s, attempt) then s.(phase := Raised(attempt, false, None, RunCancelled))
    else
      var (s1, r) := Noted(s, attempt.(state := Running), fault);
      match r
      case Success(winner) => s1.(phase := Executing(winner))
      case Failure(_) => s1.(phase := Raised(attempt, false, None, Reraised))
  }

  /** Publication, serialized with cancellation by the lock. */
  function Publish(s: Session, now: nat, saveFault: Fault, fault: Fault): Session
    requires s.phase.Returned?
  {
    var attempt := s.phase.attempt;
    if IsCancelled(s, attempt) then s.(phase := Raised(attempt, false, None, RunCancelled))
    else
      match s.phase.event
      case CancelledEvent =>
        var (s1, r) := Noted(s, CancelledRecord(attempt, now), fault);
        s1.(phase := if r.Success? then Raised(r.value, false, None, RunCancelled)
                     else Raised(attempt, false, None, Reraised))
      case FailedEvent => s.(phase := Raised(attempt, false, None, RunFailed))
      case UnexpectedEvent => s.(phase := Raised(attempt, true, None, Reraised))
      case ResultEvent(row, publishable) =>
        if !publishable then s.(phase := Raised(attempt, true, Some(row.artifact), Reraised))
        else
          var (disk, saved) := Saved(s.disk, row, saveFault);
          if !saved then s.(disk := disk, phase := Raised(attempt, true, Some(row.artifact), Reraised))
          else
            var (s1, r) := Noted(s.(disk := disk), CompletedRecord(attempt, now, row.artifact), fault);
            if r.Success? then s1.(phase := Leaving(attempt, View))
            else s1.(phase := Raised(attempt, true, Some(row.artifact), Reraised))
  }

  /** The exception handler: a cancelled attempt is rejected as such, any other is recorded
      as failed; an error before publication is then raised again as it was. */
  function Handle(s: Session, now: nat, fault: Fault): Session
    requires s.phase.Raised?
  {
    var attempt := s.phase.attempt;
    if IsCancelled(s, attempt) then s.(phase := Leaving(attempt, RunCancelled))
    else
      var (s1, r) := Noted(s, FailedRecord(attempt, now, s.phase.artifact), fault);
      s1.(phase := Leaving(attempt, if r.Failure? || s.phase.publishing then PersistenceFailed else s.phase.error))
  }

  /** The final region frees the service and the caller sees the outcome. */
  function Leave(s: Session): Session
    requires s.phase.Leaving?
  {
    s.(phase := Idle, outcomes := s.outcomes[IdOf(s.phase.attempt) := s.phase.outcome])
  }

  predicate Open(d: Disk, id: Id) {
    Durable(d, id).Some? && !Terminal(Durable(d, id).value.state)
  }

  /** `cancel_run` for an open attempt. */
  function Cancel(s: Session, id: Id, now: nat, fault: Fault): Session
    requires Open(s.disk, id)
  {
    var (s1, r) := Noted(s, CancelledRecord(Durable(s.disk, id).value, now), fault);
    if r.Success? && r.value.state == Cancelled then s1.(acknowledged := s1.acknowledged + {id}) else s1
  }

  // ---- Steps ----------------------------------------------------------------------------------

  datatype Act =
    | AdmitAct(attempt: Record, now: nat, fault: Fault, auditFault: Fault)
    | MarkRunningAct(fault: Fault)
    | ReturnAct(event: ExecutionEvent)
    | RaiseAct
    | PublishAct(now: nat, saveFault: Fault, fault: Fault)
    | HandleAct(now: nat, fault: Fault)
    | LeaveAct
    | CancelAct(id: Id, now: nat, fault: Fault)
    | CrashAct
    | ForeignAct(step: Step)

  /** When an act can happen. A new attempt has fresh identifiers; a publishable result carries
      the admitted run; another process only makes the writes the stores allow. */
  predicate Enabled(s: Session, act: Act) {
    match act
    case AdmitAct(attempt, _, _, _) =>
      && s.phase.Idle? && attempt.state == Admitted && !attempt.persisted
      && Durable(s.disk, IdOf(attempt)).None? && IdOf(attempt) !in s.pending
      && IdOf(attempt) !in s.outcomes && IdOf(attempt) !in s.acknowledged
      && RunFresh(s.disk, attempt.identity.run)
    case MarkRunningAct(_) => s.phase.Admission?
    case ReturnAct(event) =>
      && s.phase.Executing?
      && (event.ResultEvent? && event.publishable ==> event.row.run == s.phase.attempt.identity.run)
    case RaiseAct => s.phase.Executing?
    case PublishAct(_, _, _) => s.phase.Returned?
    case HandleAct(_, _) => s.phase.Raised?
    case LeaveAct => s.phase.Leaving?
    case CancelAct(id, _, _) => Open(s.disk, id)
    case CrashAct => true
    case ForeignAct(step) => Allowed(s.disk, step)
  }

  function Next(s: Session, act: Act): Session
    requires Enabled(s, act)
  {
    match act
    case AdmitAct(attempt, now, fault, auditFault) => Admit(s, attempt, now, fault, auditFault)
    case MarkRunningAct(fault) => MarkRunning(s, fault)
    case ReturnAct(event) => s.(phase := Returned(s.phase.attempt, event))
    case RaiseAct => s.(phase := Raised(s.phase.attempt, false, None, Reraised))
    case PublishAct(now, saveFault, fault) => Publish(s, now, saveFault, fault)
    case HandleAct(now, fault) => Handle(s, now, fault)
    case LeaveAct => Leave(s)
    case CancelAct(id, now, fault) => Cancel(s, id, now, fault)
    case CrashAct => s.(phase := Idle, pending := map[])
    case ForeignAct(step) => s.(disk := Effect(s.disk, step))
  }

  // ---- Every interleaving, with faults, crashes and other processes ---------------------------

  function PhaseAttempt(p: Phase): Option<Record> {
    match p
    case Idle => None
    case Admission(a) => Some(a)
    case Executing(a) => Some(a)
    case Returned(a, _) => Some(a)
    case Raised(a, _, _, _) => Some(a)
    case Leaving(a, _) => None
  }

  /** The attempt being executed is indexed under its own identity. */
  ghost predicate Guarded(s: Session) {
    && Sound(s.disk)
    && (PhaseAttempt(s.phase).Some? ==>
          var a := PhaseAttempt(s.phase).value;
          IdOf(a) in s.disk.attempts && s.disk.attempts[IdOf(a)].identity == a.identity)
    && (s.phase.Returned? && s.phase.event.ResultEvent? && s.phase.event.publishable ==>
          s.phase.event.row.run == s.phase.attempt.identity.run)
  }

  lemma NotedKeeps(s: Session, r: Record, fault: Fault)
    requires Sound(s.disk) && (Durable(s.disk, IdOf(r)).Some? || RunFresh(s.disk, r.identity.run))
    ensures var d' := Noted(s, r, fault).0.disk;
            && Sound(d') && Forward(s.disk, d')
            && s.disk.attempts.Keys <= d'.attempts.Keys
            && (forall id :: id in s.disk.attempts ==> d'.attempts[id].identity == s.disk.attempts[id].identity)
            && (Noted(s, r, fault).1.Success? ==>
                  && IdOf(r) in d'.attempts && d'.attempts[IdOf(r)].identity == r.identity
                  && Noted(s, r, fault).1.value.identity == r.identity)
  {
    hide Sound, Forward;
    ProposeKeepsSound(s.disk, r, fault);
    IndexKeepsIdentity(s.disk, r, fault);
  }

  lemma IndexKeepsIdentity(d: Disk, r: Record, fault: Fault)
    requires Sound(d)
    ensures var (d', w) := Recorded(d, r, fault);
            && d.attempts.Keys <= d'.attempts.Keys
            && (forall id :: id in d.attempts ==> d'.attempts[id].identity == d.attempts[id].identity)
            && (w.Success? ==>
                  IdOf(r) in d'.attempts && d'.attempts[IdOf(r)].identity == r.identity == w.value.identity)
  {
    RecordedKeeps(d, r, fault);
  }

  lemma AdmitGuarded(s: Session, attempt: Record, now: nat, fault: Fault, auditFault: Fault)
    requires Guarded(s) && Enabled(s, AdmitAct(attempt, now, fault, auditFault))
    ensures var s' := Admit(s, attempt, now, fault, auditFault);
            Guarded(s') && Forward(s.disk, s'.disk)
  {
    hide Sound, Forward, Recorded, Durable;
    NotedKeeps(s, attempt, fault);
    var (s1, r) := Noted(s, attempt, fault);
    if r.Failure? {
      var failed := FailedRecord(attempt, now, None);
      StillAdmissible(s.disk, attempt, fault);
      NotedKeeps(s1, failed, auditFault);
      ForwardTransitive(s.disk, s1.disk, Noted(s1, failed, auditFault).0.disk);
    }
  }

  /** After a failed admission write the attempt is still either durable or fresh. */
  lemma StillAdmissible(d: Disk, r: Record, fault: Fault)
    requires Sound(d) && RunFresh(d, r.identity.run)
    ensures var d' := Recorded(d, r, fault).0;
            Durable(d', IdOf(r)).Some? || RunFresh(d', r.identity.run)
  {
    var d' := Recorded(d, r, fault).0;
    RecordedKeeps(d, r, fault);
    hide Recorded, Durable, Sound;
    if Durable(d', IdOf(r)).None? {
      forall id | Durable(d', id).Some? ensures Durable(d', id).value.identity.run != r.identity.run {
        assert Durable(d', id) == Durable(d, id);
        DurableIsListed(d, id);
      }
    }
  }

  lemma DurableIsListed(d: Disk, id: Id)
    requires Durable(d, id).Some?
    ensures id in d.manifests.Keys + d.legacy.Keys
  {
  }

  lemma PublishGuarded(s: Session, now: nat, saveFault: Fault, fault: Fault)
    requires Guarded(s) && s.phase.Returned?
    ensures var s' := Publish(s, now, saveFault, fault);
            Guarded(s') && Forward(s.disk, s'.disk)
  {
    hide Sound, Forward, Recorded, Durable, Saved;
    var attempt := s.phase.attempt;
    ForwardReflexive(s.disk);
    IndexedIsDurable(s.disk, IdOf(attempt));
    if !IsCancelled(s, attempt) {
      match s.phase.event
      case CancelledEvent => NotedKeeps(s, CancelledRecord(attempt, now), fault);
      case FailedEvent =>
      case UnexpectedEvent =>
      case ResultEvent(row, publishable) =>
        if publishable {
          SaveKeepsSound(s.disk, row, IdOf(attempt), saveFault);
          SavedAside(s.disk, row, saveFault);
          var disk := Saved(s.disk, row, saveFault).0;
          IndexedIsDurable(disk, IdOf(attempt));
          var s1 := s.(disk := disk);
          var completed := CompletedRecord(attempt, now, row.artifact);
          NotedKeeps(s1, completed, fault);
          ForwardTransitive(s.disk, disk, Noted(s1, completed, fault).0.disk);
        }
    }
  }

  lemma SavedAside(d: Disk, row: RunRow, fault: Fault)
    ensures var d' := Saved(d, row, fault).0;
            d'.attempts == d.attempts && d'.manifests == d.manifests && d'.legacy == d.legacy
  {
  }

  lemma IndexedIsDurable(d: Disk, id: Id)
    requires Sound(d) && id in d.attempts
    ensures Durable(d, id).Some? && Durable(d, id).value.identity == d.attempts[id].identity
    ensures d.attempts[id].identity.attempt == id
  {
  }

  lemma ForeignGuarded(s: Session, step: Step)
    requires Guarded(s) && Allowed(s.disk, step)
    ensures var s' := s.(disk := Effect(s.disk, step));
            Guarded(s') && Forward(s.disk, s'.disk)
  {
    hide Sound, Forward, Recorded, Durable, Saved;
    StepKeepsSound(s.disk, step);
    match step
    case Propose(r, fault) => IndexKeepsIdentity(s.disk, r, fault);
    case SaveRun(row, a, fault) => SavedAside(s.disk, row, fault);
  }

  /** Every act, whatever fails in it, keeps the store sound and every durable record moving
      only forward. */
  lemma ActGuarded(s: Session, act: Act)
    requires Guarded(s) && Enabled(s, act)
    ensures Guarded(Next(s, act)) && Forward(s.disk, Next(s, act).disk)
  {
    hide Sound, Forward, Recorded, Durable, Admit, Publish;
    ForwardReflexive(s.disk);
    if PhaseAttempt(s.phase).Some? { IndexedIsDurable(s.disk, IdOf(PhaseAttempt(s.phase).value)); }
    match act
    case AdmitAct(attempt, now, fault, auditFault) => AdmitGuarded(s, attempt, now, fault, auditFault);
    case MarkRunningAct(fault) => NotedKeeps(s, s.phase.attempt.(state := Running), fault);
    case ReturnAct(_) =>
    case RaiseAct =>
    case PublishAct(now, saveFault, fault) => PublishGuarded(s, now, saveFault, fault);
    case HandleAct(now, fault) => NotedKeeps(s, FailedRecord(s.phase.attempt, now, s.phase.artifact), fault);
    case LeaveAct =>
    case CancelAct(id, now, fault) =>
      DurableIdentity(s.disk, id);
      NotedKeeps(s, CancelledRecord(Durable(s.disk, id).value, now), fault);
    case CrashAct =>
    case ForeignAct(step) => ForeignGuarded(s, step);
  }

  lemma DurableIdentity(d: Disk, id: Id)
    requires Sound(d) && Durable(d, id).Some?
    ensures IdOf(Durable(d, id).value) == id
  {
  }

  ghost predicate Acts(s: Session, acts: seq<Act>)
    decreases |acts|
  {
    acts == [] || (Enabled(s, acts[0]) && Acts(Next(s, acts[0]), acts[1..]))
  }

  function Finally(s: Session, acts: seq<Act>): Session
    requires Acts(s, acts)
    decreases |acts|
  {
    if acts == [] then s else Finally(Next(s, acts[0]), acts[1..])
  }

  /** In every interleaving of one service with any other processes, with faults and crashes
      anywhere: an attempt keeps its admission identity, has at most one terminal record, and
      the last-valid run of a case, when it was executed for an attempt, is durably completed
      and persisted. */
  lemma {:induction false} EveryInterleaving(s: Session, acts: seq<Act>)
    requires Guarded(s) && Acts(s, acts)
    ensures Guarded(Finally(s, acts)) && Forward(s.disk, Finally(s, acts).disk)
    ensures forall caseId, row, id ::
      IsLatestValid(Finally(s, acts).disk, caseId, row) && Owns(Finally(s, acts).disk, id, row.run) ==>
        Done(Durable(Finally(s, acts).disk, id).value)
    decreases |acts|
  {
    hide Forward, Recorded, Next, Enabled, Consistent;
    ForwardReflexive(s.disk);
    if acts == [] {
      forall caseId, row, id | IsLatestValid(s.disk, caseId, row) && Owns(s.disk, id, row.run)
        ensures Done(Durable(s.disk, id).value)
      {
        var k :| k in s.disk.runs && s.disk.runs[k] == row;
        EligibleIsDone(s.disk, row, id);
      }
    } else {
      ActGuarded(s, acts[0]);
      EveryInterleaving(Next(s, acts[0]), acts[1..]);
      ForwardTransitive(s.disk, Next(s, acts[0]).disk, Finally(s, acts).disk);
    }
  }

  // ---- One service, storage that works --------------------------------------------------------

  /** No fault, no crash, no other process. */
  predicate Calm(act: Act) {
    match act
    case AdmitAct(_, _, fault, auditFault) => fault == NoFault && auditFault == NoFault
    case MarkRunningAct(fault) => fault == NoFault
    case PublishAct(_, saveFault, fault) => saveFault == NoFault && fault == NoFault
    case HandleAct(_, fault) => fault == NoFault
    case CancelAct(_, _, fault) => fault == NoFault
    case CrashAct => false
    case ForeignAct(_) => false
    case _ => true
  }

  function StateOf(d: Disk, id: Id): Option<State> {
    if Durable(d, id).Some? then Some(Durable(d, id).value.state) else None
  }

  /** The attempt is settled as the outcome says. */
  predicate Settled(d: Disk, id: Id, outcome: Outcome) {
    && Durable(d, id).Some?
    && var r := Durable(d, id).value;
    match outcome
    case View => Done(r) && r.identity.run in d.runs
    case RunCancelled => r.state == Cancelled && r.identity.run !in d.runs
    case RunFailed => r.state == Failed && r.identity.run !in d.runs
    case PersistenceFailed | Reraised => r.state == Failed && r.identity.run !in d.runs
  }

  /** The attempt in execution: open as its phase says, or already cancelled; no run saved. */
  predicate InFlight(d: Disk, a: Record, open: State) {
    && Durable(d, IdOf(a)).Some?
    && var r := Durable(d, IdOf(a)).value;
    && r.identity == a.identity && (r.state == open || r.state == Cancelled)
    && a.identity.run !in d.runs
  }

  ghost predicate PhaseHolds(s: Session) {
    match s.phase
    case Idle => true
    case Admission(a) => InFlight(s.disk, a, Admitted)
    case Executing(a) => InFlight(s.disk, a, Running)
    case Returned(a, _) => InFlight(s.disk, a, Running)
    case Raised(a, _, _, error) =>
      && InFlight(s.disk, a, Running) && error in {RunCancelled, RunFailed, Reraised}
      && (error == RunCancelled ==> StateOf(s.disk, IdOf(a)) == Some(Cancelled))
    case Leaving(a, outcome) => Settled(s.disk, IdOf(a), outcome)
  }

  function CurrentId(p: Phase): Option<Id> {
    match p
    case Leaving(a, _) => Some(IdOf(a))
    case _ => if PhaseAttempt(p).Some? then Some(IdOf(PhaseAttempt(p).value)) else None
  }

  ghost predicate Orderly(s: Session) {
    && Guarded(s) && s.pending == map[] && PhaseHolds(s)
    && (forall id :: Durable(s.disk, id).Some? && !Terminal(Durable(s.disk, id).value.state) ==>
          PhaseAttempt(s.phase).Some? && id == IdOf(PhaseAttempt(s.phase).value))
    && (forall id :: id in s.outcomes ==> Settled(s.disk, id, s.outcomes[id]) && CurrentId(s.phase) != Some(id))
    && (forall id :: id in s.acknowledged ==>
          && Durable(s.disk, id).Some? && Durable(s.disk, id).value.state == Cancelled
          && Durable(s.disk, id).value.identity.run !in s.disk.runs)
  }

  /** A write that works, seen from the durable records. */
  lemma NotedCalm(s: Session, r: Record)
    requires Sound(s.disk) && s.pending == map[]
    requires Durable(s.disk, IdOf(r)).Some? ==> Durable(s.disk, IdOf(r)).value.identity == r.identity
    ensures var (s1, w) := Noted(s, r, NoFault);
            && w.Success? && w.value.identity == r.identity && s1.pending == map[]
            && s1.disk.runs == s.disk.runs
            && (forall id :: id != IdOf(r) ==> Durable(s1.disk, id) == Durable(s.disk, id))
            && Durable(s1.disk, IdOf(r)).Some? && Durable(s1.disk, IdOf(r)).value.identity == r.identity
            && (match StateOf(s.disk, IdOf(r))
                case None => StateOf(s1.disk, IdOf(r)) == Some(r.state)
                case Some(before) =>
                  if Terminal(before) then Durable(s1.disk, IdOf(r)) == Durable(s.disk, IdOf(r))
                  else if before == Running && r.state == Admitted then StateOf(s1.disk, IdOf(r)) == Some(Running)
                  else w.value == r && StateOf(s1.disk, IdOf(r)) == Some(r.state)
                       && (Terminal(r.state) ==> Durable(s1.disk, IdOf(r)) == Some(r)))
  {
    hide Durable, Recorded;
    RecordedKeeps(s.disk, r, NoFault);
    RecordedSucceeds(s.disk, r);
  }

  /** The attempt is the only owner of its run. */
  lemma SoleOwner(d: Disk, a: Id, b: Id)
    requires Sound(d) && Durable(d, a).Some? && Durable(d, b).Some?
    ensures Durable(d, a).value.identity.run == Durable(d, b).value.identity.run ==> a == b
  {
    hide Durable;
    var k := Durable(d, a).value.identity.run;
    assert Owns(d, a, k);
    if Durable(d, b).value.identity.run == k { assert Owns(d, b, k); }
  }

  lemma PublishOrderly(s: Session, now: nat)
    requires Orderly(s) && s.phase.Returned?
    ensures Orderly(Publish(s, now, NoFault, NoFault))
  {
    hide Durable, Recorded, Sound;
    PublishGuarded(s, now, NoFault, NoFault);
    var a := s.phase.attempt;
    if !IsCancelled(s, a) {
      match s.phase.event
      case CancelledEvent => NotedCalm(s, CancelledRecord(a, now));
      case FailedEvent =>
      case UnexpectedEvent =>
      case ResultEvent(row, publishable) =>
        if publishable {
          var disk := Saved(s.disk, row, NoFault).0;
          SaveKeepsSound(s.disk, row, IdOf(a), NoFault);
          SavedAside(s.disk, row, NoFault);
          forall id ensures Durable(disk, id) == Durable(s.disk, id) { SameManifests(s.disk, disk, id); }
          forall id | Durable(s.disk, id).Some? && id != IdOf(a)
            ensures Durable(s.disk, id).value.identity.run != row.run
          {
            SoleOwner(s.disk, id, IdOf(a));
          }
          NotedCalm(s.(disk := disk), CompletedRecord(a, now, row.artifact));
        }
    }
  }

  lemma AdmitOrderly(s: Session, attempt: Record, now: nat)
    requires Orderly(s) && Enabled(s, AdmitAct(attempt, now, NoFault, NoFault))
    ensures Orderly(Admit(s, attempt, now, NoFault, NoFault))
  {
    hide Durable, Recorded, Sound;
    ActGuarded(s, AdmitAct(attempt, now, NoFault, NoFault));
    NotedCalm(s, attempt);
  }

  lemma MarkOrderly(s: Session)
    requires Orderly(s) && s.phase.Admission?
    ensures Orderly(MarkRunning(s, NoFault))
  {
    hide Durable, Recorded, Sound;
    ActGuarded(s, MarkRunningAct(NoFault));
    NotedCalm(s, s.phase.attempt.(state := Running));
  }

  lemma HandleOrderly(s: Session, now: nat)
    requires Orderly(s) && s.phase.Raised?
    ensures Orderly(Handle(s, now, NoFault))
  {
    hide Durable, Recorded, Sound;
    ActGuarded(s, HandleAct(now, NoFault));
    NotedCalm(s, FailedRecord(s.phase.attempt, now, s.phase.artifact));
  }

  lemma CancelOrderly(s: Session, id: Id, now: nat)
    requires Orderly(s) && Open(s.disk, id)
    ensures Orderly(Cancel(s, id, now, NoFault))
  {
    hide Durable, Recorded, Sound;
    ActGuarded(s, CancelAct(id, now, NoFault));
    DurableIdentity(s.disk, id);
    NotedCalm(s, CancelledRecord(Durable(s.disk, id).value, now));
  }

  lemma ReturnOrderly(s: Session, event: ExecutionEvent)
    requires Orderly(s) && Enabled(s, ReturnAct(event))
    ensures Orderly(Next(s, ReturnAct(event)))
  {
    hide Durable, Sound;
  }

  lemma RaiseOrderly(s: Session)
    requires Orderly(s) && s.phase.Executing?
    ensures Orderly(Next(s, RaiseAct))
  {
    hide Durable, Sound;
  }

  lemma LeaveOrderly(s: Session)
    requires Orderly(s) && s.phase.Leaving?
    ensures Orderly(Leave(s))
  {
    hide Durable, Sound;
  }

  lemma ActOrderly(s: Session, act: Act)
    requires Orderly(s) && Enabled(s, act) && Calm(act)
    ensures Orderly(Next(s, act))
  {
    hide Orderly, Admit, MarkRunning, Publish, Handle, Cancel, Leave, Durable;
    match act
    case AdmitAct(attempt, now, fault, auditFault) => AdmitOrderly(s, attempt, now);
    case MarkRunningAct(fault) => MarkOrderly(s);
    case ReturnAct(event) => ReturnOrderly(s, event);
    case RaiseAct => RaiseOrderly(s);
    case PublishAct(now, saveFault, fault) => PublishOrderly(s, now);
    case HandleAct(now, fault) => HandleOrderly(s, now);
    case LeaveAct => LeaveOrderly(s);
    case CancelAct(id, now, fault) => CancelOrderly(s, id, now);
  }

  /** A service as constructed: its startup reconciliation left no attempt open. */
  ghost predicate Started(s: Session) {
    && Sound(s.disk) && s.phase == Idle && s.pending == map[] && s.outcomes == map[] && s.acknowledged == {}
    && (forall id :: Durable(s.disk, id).Some? ==> Terminal(Durable(s.disk, id).value.state))
  }

  ghost predicate AllCalm(acts: seq<Act>) {
    forall i :: 0 <= i < |acts| ==> Calm(acts[i])
  }

  lemma {:induction false} CalmRunOrderly(s: Session, acts: seq<Act>)
    requires Orderly(s) && Acts(s, acts) && AllCalm(acts)
    ensures Orderly(Finally(s, acts))
    decreases |acts|
  {
    hide Orderly, Next, Enabled, Calm;
    if acts != [] {
      ActOrderly(s, acts[0]);
      CalmRunOrderly(Next(s, acts[0]), acts[1..]);
    }
  }

  /** What the callers were told agrees with the durable records and with each other. */
  ghost predicate AnswersHold(s: Session) {
    && (forall id :: id in s.outcomes ==> Settled(s.disk, id, s.outcomes[id]))
    && (forall id :: id in s.acknowledged ==>
          && StateOf(s.disk, id) == Some(Cancelled)
          && Durable(s.disk, id).value.identity.run !in s.disk.runs
          && (id in s.outcomes ==> s.outcomes[id] == RunCancelled))
    && (s.phase.Idle? ==> forall id :: Durable(s.disk, id).Some? ==> Terminal(Durable(s.disk, id).value.state))
  }

  /** For every interleaving of runs and cancellations over storage that works: an attempt
      whose run returned a view is completed, persisted and indexed; one whose cancellation
      was acknowledged is cancelled, its run was never indexed and its start is rejected as
      cancelled; a failed one is recorded failed; and an idle service leaves every attempt in
      a terminal state. */
  lemma CancellationRace(s: Session, acts: seq<Act>)
    requires Started(s) && Acts(s, acts) && AllCalm(acts)
    ensures AnswersHold(Finally(s, acts))
  {
    hide Durable, Sound, Acts, Finally;
    CalmRunOrderly(s, acts);
  }

  /** A result that is published reports a view; it is then durably completed and persisted
      exactly when no other process had closed the attempt first. */
  lemma ViewIsDone(s: Session, now: nat)
    requires Guarded(s) && s.phase.Returned? && IdOf(s.phase.attempt) !in s.pending
    requires s.phase.event.ResultEvent? && s.phase.event.publishable && s.phase.event.row.run !in s.disk.runs
    requires !IsCancelled(s, s.phase.attempt)
    ensures var s' := Publish(s, now, NoFault, NoFault);
            && s'.phase == Leaving(s.phase.attempt, View)
            && Durable(s'.disk, IdOf(s.phase.attempt)).Some?
            && (Done(Durable(s'.disk, IdOf(s.phase.attempt)).value)
                <==> !Terminal(Durable(s.disk, IdOf(s.phase.attempt)).value.state)
                     || Done(Durable(s.disk, IdOf(s.phase.attempt)).value))
  {
    hide Durable, Recorded, Sound;
    var a, row := s.phase.attempt, s.phase.event.row;
    IndexedIsDurable(s.disk, IdOf(a));
    var disk := Saved(s.disk, row, NoFault).0;
    SaveKeepsSound(s.disk, row, IdOf(a), NoFault);
    SavedAside(s.disk, row, NoFault);
    SameManifests(s.disk, disk, IdOf(a));
    assert Consistent(disk) by { SoundIsConsistent(disk); }
    RecordedSucceeds(disk, CompletedRecord(a, now, row.artifact));
  }

  /** An error before publication is raised again unless the attempt is cancelled; the handler
      itself cancels nothing. */
  lemma HandledAsRaised(s: Session, now: nat)
    requires Guarded(s) && s.phase.Raised? && !s.phase.publishing && IdOf(s.phase.attempt) !in s.pending
    ensures var t := Handle(s, now, NoFault);
            var cancelled := StateOf(s.disk, IdOf(s.phase.attempt)) == Some(Cancelled);
            && t.phase == Leaving(s.phase.attempt, if cancelled then RunCancelled else s.phase.error)
            && (StateOf(t.disk, IdOf(s.phase.attempt)) == Some(Cancelled) <==> cancelled)
  {
    hide Durable, Recorded;
    IndexedIsDurable(s.disk, IdOf(s.phase.attempt));
    SoundIsConsistent(s.disk);
    hide Sound;
    RecordedSucceeds(s.disk, FailedRecord(s.phase.attempt, now, s.phase.artifact));
  }

  /** A worker's cancelled event always rejects the run as cancelled; the attempt is then durably
      cancelled exactly when no other process had closed it first. */
  lemma CancelledEventIsCancelled(s: Session, now: nat, later: nat)
    requires Guarded(s) && s.phase.Returned? && IdOf(s.phase.attempt) !in s.pending
    requires s.phase.event.CancelledEvent? && !IsCancelled(s, s.phase.attempt)
    ensures var s1 := Publish(s, now, NoFault, NoFault);
            s1.phase.Raised? &&
            var s2 := Handle(s1, later, NoFault);
            && s2.phase.Leaving? && s2.phase.outcome == RunCancelled
            && (StateOf(s2.disk, IdOf(s.phase.attempt)) == Some(Cancelled)
                <==> !Terminal(Durable(s.disk, IdOf(s.phase.attempt)).value.state))
  {
    PublishGuarded(s, now, NoFault, NoFault);
    RecordsCancelled(s, now);
    hide Guarded, Durable, Recorded, Handle, Publish;
    HandledAsRaised(Publish(s, now, NoFault, NoFault), later);
  }

  lemma RecordsCancelled(s: Session, now: nat)
    requires Guarded(s) && s.phase.Returned? && IdOf(s.phase.attempt) !in s.pending
    requires s.phase.event.CancelledEvent? && !IsCancelled(s, s.phase.attempt)
    ensures var t := Publish(s, now, NoFault, NoFault);
            && t.phase.Raised? && IdOf(t.phase.attempt) == IdOf(s.phase.attempt) && IdOf(t.phase.attempt) !in t.pending
            && !t.phase.publishing && t.phase.error == RunCancelled
            && (StateOf(t.disk, IdOf(s.phase.attempt)) == Some(Cancelled)
                <==> !Terminal(Durable(s.disk, IdOf(s.phase.attempt)).value.state))
  {
    hide Durable, Recorded;
    IndexedIsDurable(s.disk, IdOf(s.phase.attempt));
    SoundIsConsistent(s.disk);
    hide Sound;
    RecordedSucceeds(s.disk, CancelledRecord(s.phase.attempt, now));
  }

  lemma SoundIsConsistent(d: Disk)
    requires Sound(d)
    ensures Consistent(d)
  {
  }

  const NEW_ATTEMPT := Record(Identity(1, 2, 3, "", "", 0, ""), Admitted, None, None, None, false)
  const NEW_DISK := Disk(map[], map[], map[], map[], map[])
  const RUNNING_DISK := NEW_DISK.(manifests := map[1 := NEW_ATTEMPT.(state := Running)],
                                  attempts := map[1 := NEW_ATTEMPT.(state := Running)])

  const FRESH := Session(NEW_DISK, Idle, map[], map[], {})
  const EXECUTING := FRESH.(disk := RUNNING_DISK, phase := Executing(NEW_ATTEMPT.(state := Running)))

  /** A new service admits an attempt and marks it running. */
  const STARTING := [AdmitAct(NEW_ATTEMPT, 0, NoFault, NoFault), MarkRunningAct(NoFault)]

  /** Its result is back, a second service reconciles the same root, the first publishes. */
  const INTERRUPTING :=
    [ReturnAct(ResultEvent(RunRow(2, 3, 0, 4, true), true)),
     ForeignAct(Propose(Abandoned(NEW_ATTEMPT.(state := Running), 5), NoFault)),
     PublishAct(6, NoFault, NoFault)]

  lemma ExecutingIsReached()
    ensures Started(FRESH) && Acts(FRESH, STARTING) && Finally(FRESH, STARTING) == EXECUTING
  {
    var admit, mark := AdmitAct(NEW_ATTEMPT, 0, NoFault, NoFault), MarkRunningAct(NoFault);
    assert Enabled(FRESH, admit);
    var s1 := Next(FRESH, admit);
    assert s1 == FRESH.(disk := NEW_DISK.(manifests := map[1 := NEW_ATTEMPT], attempts := map[1 := NEW_ATTEMPT]),
                        phase := Admission(NEW_ATTEMPT));
    assert Durable(s1.disk, 1) == Some(NEW_ATTEMPT);
    var s2 := Next(s1, mark);
    assert s2.disk == RUNNING_DISK && s2 == EXECUTING;
    assert [admit, mark][1..] == [mark] && [mark][1..] == [];
    hide Next, Enabled;
    assert Acts(s2, []) && Finally(s2, []) == s2;
    assert Acts(s1, [mark]) && Finally(s1, [mark]) == s2;
  }

  /** So a second service that starts on the same root while a run executes closes the
      attempt as interrupted, and the first still hands its caller a view. */
  lemma SecondServiceInterrupts()
    ensures Started(FRESH) && Acts(FRESH, STARTING) && Finally(FRESH, STARTING) == EXECUTING
    ensures Acts(EXECUTING, INTERRUPTING)
    ensures var s := Finally(EXECUTING, INTERRUPTING);
            s.phase == Leaving(NEW_ATTEMPT.(state := Running), View) && StateOf(s.disk, 1) == Some(Interrupted)
  {
    ExecutingIsReached();
    var event := ResultEvent(RunRow(2, 3, 0, 4, true), true);
    var interrupted := Abandoned(NEW_ATTEMPT.(state := Running), 5);
    var s1 := Next(EXECUTING, ReturnAct(event));
    assert Durable(RUNNING_DISK, 1) == Some(NEW_ATTEMPT.(state := Running));
    var s2 := Next(s1, ForeignAct(Propose(interrupted, NoFault)));
    assert Durable(s2.disk, 1) == Some(interrupted);
    assert Next(s2, PublishAct(6, NoFault, NoFault)).phase == Leaving(NEW_ATTEMPT.(state := Running), View);
    ThreeSteps(EXECUTING, ReturnAct(event), ForeignAct(Propose(interrupted, NoFault)), PublishAct(6, NoFault, NoFault));
  }

  lemma ThreeSteps(s: Session, a: Act, b: Act, c: Act)
    requires Enabled(s, a) && Enabled(Next(s, a), b) && Enabled(Next(Next(s, a), b), c)
    ensures Acts(s, [a, b, c]) && Finally(s, [a, b, c]) == Next(Next(Next(s, a), b), c)
  {
    hide Next, Enabled;
    var acts := [a, b, c];
    assert acts[1..] == [b, c] && [b, c][1..] == [c] && [c][1..] == [];
    var s1 := Next(s, a);
    var s2 := Next(s1, b);
    assert acts[0] == a && [b, c][0] == b && [c][0] == c;
    assert Acts(s2, [c]) && Finally(s2, [c]) == Next(s2, c);
    assert Acts(s1, [b, c]) && Finally(s1, [b, c]) == Finally(s2, [c]);
  }
}
