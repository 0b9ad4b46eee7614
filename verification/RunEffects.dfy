/** What the regions of a run do: undisturbed, cut short by a fault, and after a cancellation. */
module RunEffects {
  import opened Wrappers
  import opened Attempts
  import opened Store
  import opened LastValid
  import opened Lifecycle

  /** The attempt is durably closed as cancelled, and no other record of it is kept in memory. */
  predicate Marked(s: Session, id: Id) {
    StateOf(s.disk, id) == Some(Cancelled) && id !in s.pending
  }

  /** A write of a record for its open or new attempt, over storage that works. */
  lemma NotedWorks(s: Session, r: Record)
    requires Consistent(s.disk)
    requires Durable(s.disk, IdOf(r)).Some? ==>
      Durable(s.disk, IdOf(r)).value.identity == r.identity && Open(s.disk, IdOf(r))
      && Rank(Durable(s.disk, IdOf(r)).value.state) <= Rank(r.state)
    ensures var (t, w) := Noted(s, r, NoFault);
      && w == Success(r) && t == s.(disk := t.disk, pending := s.pending - {IdOf(r)})
      && StateOf(t.disk, IdOf(r)) == Some(r.state) && Durable(t.disk, IdOf(r)).value.identity == r.identity
      && (Terminal(r.state) ==> Durable(t.disk, IdOf(r)) == Some(r)) && At(t.disk.attempts, IdOf(r)) == Some(r)
      && t.disk.runs == s.disk.runs && t.disk.artifacts == s.disk.artifacts
      && (forall other :: other != IdOf(r) ==> Durable(t.disk, other) == Durable(s.disk, other))
  {
    hide Durable, Recorded, Consistent;
    RecordedSucceeds(s.disk, r);
    RecordedKeeps(s.disk, r, NoFault);
  }

  // ---- Cancellation ---------------------------------------------------------------------------

  /** A cancel call over working storage durably closes the open attempt at the given time, says so,
      and touches nothing else. */
  lemma CancelCloses(s: Session, id: Id, now: nat)
    requires Guarded(s) && Enabled(s, CancelAct(id, now, NoFault))
    ensures var t := Next(s, CancelAct(id, now, NoFault));
      && Marked(t, id) && Durable(t.disk, id).value.terminalAt == Some(now)
      && Durable(t.disk, id).value.identity == Durable(s.disk, id).value.identity
      && t.acknowledged == s.acknowledged + {id} && t.phase == s.phase && t.outcomes == s.outcomes
      && t.disk.runs == s.disk.runs
      && (forall other :: other != id ==> Durable(t.disk, other) == Durable(s.disk, other))
      && (forall other :: other != id ==> (other in t.pending <==> other in s.pending))
  {
    hide Durable, Recorded;
    DurableIdentity(s.disk, id);
    SoundIsConsistent(s.disk);
    hide Sound;
    NotedWorks(s, CancelledRecord(Durable(s.disk, id).value, now));
  }

  lemma CancelledStays(d: Disk, d': Disk, id: Id)
    requires Forward(d, d') && Durable(d, id).Some? && Durable(d, id).value.state == Cancelled
    ensures Durable(d', id) == Durable(d, id)
  {
    hide Durable;
  }

  lemma NothingPends(s: Session, act: Act, id: Id)
    requires Enabled(s, act) && Marked(s, id) && (act.CancelAct? ==> IdOf(Durable(s.disk, act.id).value) == act.id)
    ensures id !in Next(s, act).pending
  {
    hide Durable, Recorded, Saved;
  }

  lemma StepKeepsMarked(s: Session, act: Act, id: Id)
    requires Guarded(s) && Enabled(s, act) && Marked(s, id)
    ensures Marked(Next(s, act), id)
  {
    ActGuarded(s, act);
    if act.CancelAct? { DurableIdentity(s.disk, act.id); }
    NothingPends(s, act, id);
    hide Guarded, Durable, Forward, Next, Enabled;
    CancelledStays(s.disk, Next(s, act).disk, id);
  }

  /** Nobody is told of another end of the attempt. */
  predicate Rejected(s: Session, id: Id) {
    && (s.phase.Leaving? && IdOf(s.phase.attempt) == id ==> s.phase.outcome == RunCancelled)
    && (id in s.outcomes ==> s.outcomes[id] == RunCancelled)
  }

  lemma StepKeepsRejected(s: Session, act: Act, id: Id)
    requires Enabled(s, act) && Marked(s, id) && Rejected(s, id)
    ensures Rejected(Next(s, act), id)
  {
    hide Durable, Recorded;
  }

  /** Once an attempt is closed as cancelled, its run is rejected as cancelled or never answered, in
      every continuation, whatever fails, crashes or is written by others. */
  lemma {:induction false} CancelledForGood(s: Session, acts: seq<Act>, id: Id)
    requires Guarded(s) && Acts(s, acts) && Marked(s, id) && Rejected(s, id)
    ensures Marked(Finally(s, acts), id) && Rejected(Finally(s, acts), id)
    decreases |acts|
  {
    hide Guarded, Marked, Rejected, Next, Enabled;
    if acts != [] {
      ActGuarded(s, acts[0]);
      StepKeepsMarked(s, acts[0], id);
      StepKeepsRejected(s, acts[0], id);
      CancelledForGood(Next(s, acts[0]), acts[1..], id);
    }
  }

  /** The regions an execution still goes through from its phase, whatever its evaluation returns or
      raises and whatever its writes would meet. */
  function Rest(p: Phase, event: Option<ExecutionEvent>, now: nat, saveFault: Fault, fault: Fault): seq<Act> {
    match p
    case Idle => []
    case Admission(_) => [MarkRunningAct(fault), HandleAct(now, fault), LeaveAct]
    case Executing(_) =>
      if event.None? then [RaiseAct, HandleAct(now, fault), LeaveAct]
      else [ReturnAct(event.value), PublishAct(now, saveFault, fault), HandleAct(now, fault), LeaveAct]
    case Returned(_, _) => [PublishAct(now, saveFault, fault), HandleAct(now, fault), LeaveAct]
    case Raised(_, _, _, _) => [HandleAct(now, fault), LeaveAct]
    case Leaving(_, _) => [LeaveAct]
  }

  lemma FirstAct(s: Session, act: Act, rest: seq<Act>)
    requires Enabled(s, act) && Acts(Next(s, act), rest)
    ensures Acts(s, [act] + rest) && Finally(s, [act] + rest) == Finally(Next(s, act), rest)
  {
    hide Next, Enabled;
    assert ([act] + rest)[0] == act && ([act] + rest)[1..] == rest;
  }

  lemma FirstHandle(s: Session, now: nat, fault: Fault, rest: seq<Act>)
    requires s.phase.Raised? && Acts(Handle(s, now, fault), rest)
    ensures Acts(s, [HandleAct(now, fault)] + rest)
    ensures Finally(s, [HandleAct(now, fault)] + rest) == Finally(Handle(s, now, fault), rest)
  {
    hide Handle;
    FirstAct(s, HandleAct(now, fault), rest);
  }

  lemma FirstPublish(s: Session, now: nat, saveFault: Fault, fault: Fault, rest: seq<Act>)
    requires s.phase.Returned? && Acts(Publish(s, now, saveFault, fault), rest)
    ensures Acts(s, [PublishAct(now, saveFault, fault)] + rest)
    ensures Finally(s, [PublishAct(now, saveFault, fault)] + rest) == Finally(Publish(s, now, saveFault, fault), rest)
  {
    hide Publish;
    FirstAct(s, PublishAct(now, saveFault, fault), rest);
  }

  lemma HandledCancelled(s: Session, now: nat, fault: Fault)
    requires s.phase.Raised? && IsCancelled(s, s.phase.attempt)
    ensures Acts(s, [HandleAct(now, fault), LeaveAct])
    ensures Finally(s, [HandleAct(now, fault), LeaveAct])
      == s.(phase := Idle, outcomes := s.outcomes[IdOf(s.phase.attempt) := RunCancelled])
  {
    hide IsCancelled, Durable;
    var t := Next(s, HandleAct(now, fault));
    assert Acts(Next(t, LeaveAct), []) && Finally(Next(t, LeaveAct), []) == Next(t, LeaveAct);
    FirstAct(t, LeaveAct, []);
    FirstAct(s, HandleAct(now, fault), [LeaveAct]);
    assert [HandleAct(now, fault)] + [LeaveAct] == [HandleAct(now, fault), LeaveAct];
    assert [LeaveAct] + [] == [LeaveAct];
  }

  lemma MarkedIsCancelled(s: Session, a: Record)
    requires Marked(s, IdOf(a))
    ensures IsCancelled(s, a)
  {
    hide Durable;
  }

  /** A cancel call whose write fails acknowledges nothing, but leaves the cancellation in memory, so
      that the execution is still rejected. */
  lemma CutCancelRejects(s: Session, id: Id, now: nat, fault: Fault, a: Record)
    requires Guarded(s) && Enabled(s, CancelAct(id, now, fault)) && fault != NoFault && IdOf(a) == id
    ensures var t := Next(s, CancelAct(id, now, fault));
      t.acknowledged == s.acknowledged && t.outcomes == s.outcomes && t.phase == s.phase && IsCancelled(t, a)
  {
    DurableIdentity(s.disk, id);
    GuardedIsConsistent(s);
    CutWrite(s.disk, CancelledRecord(Durable(s.disk, id).value, now), fault);
    hide Durable, Recorded, Guarded, Consistent;
  }

  /** Whether an attempt is cancelled does not depend on the phase. */
  lemma SameCancelled()
    ensures forall s: Session, p, a :: IsCancelled(s.(phase := p), a) == IsCancelled(s, a)
  {
  }

  /** The execution of an attempt closed as cancelled, on disk or in memory, goes through its regions
      to the rejection, and writes nothing on the way. */
  lemma CancelledRunEnds(s: Session, event: Option<ExecutionEvent>, now: nat, saveFault: Fault, fault: Fault)
    requires Guarded(s) && PhaseAttempt(s.phase).Some? && IsCancelled(s, PhaseAttempt(s.phase).value)
    requires s.phase.Executing? && event.Some? && event.value.ResultEvent? && event.value.publishable ==>
      event.value.row.run == s.phase.attempt.identity.run
    ensures var acts := Rest(s.phase, event, now, saveFault, fault);
      && Acts(s, acts)
      && Finally(s, acts)
         == s.(phase := Idle, outcomes := s.outcomes[IdOf(PhaseAttempt(s.phase).value) := RunCancelled])
  {
    hide Durable, Recorded, Guarded, IsCancelled;
    SameCancelled();
    var tail := [HandleAct(now, fault), LeaveAct];
    match s.phase
    case Admission(a) =>
      HandledCancelled(Next(s, MarkRunningAct(fault)), now, fault);
      FirstAct(s, MarkRunningAct(fault), tail);
    case Executing(a) =>
      if event.None? {
        HandledCancelled(Next(s, RaiseAct), now, fault);
        FirstAct(s, RaiseAct, tail);
      } else {
        var t := Next(s, ReturnAct(event.value));
        var u := Next(t, PublishAct(now, saveFault, fault));
        HandledCancelled(u, now, fault);
        FirstAct(t, PublishAct(now, saveFault, fault), tail);
        FirstAct(s, ReturnAct(event.value), [PublishAct(now, saveFault, fault)] + tail);
        assert [ReturnAct(event.value)] + ([PublishAct(now, saveFault, fault)] + tail)
            == Rest(s.phase, event, now, saveFault, fault);
      }
    case Returned(a, _) =>
      HandledCancelled(Next(s, PublishAct(now, saveFault, fault)), now, fault);
      FirstAct(s, PublishAct(now, saveFault, fault), tail);
    case Raised(a, _, _, _) => HandledCancelled(s, now, fault);
  }

  // ---- Undisturbed runs -----------------------------------------------------------------------

  /** The attempt stands at a state, with its admission identity, and its run has no row. */
  predicate Stands(s: Session, a: Record, state: State) {
    && StateOf(s.disk, IdOf(a)) == Some(state) && Durable(s.disk, IdOf(a)).value.identity == a.identity
    && IdOf(a) !in s.pending && a.identity.run !in s.disk.runs
  }

  /** Nothing but the attempt has changed. */
  ghost predicate OnlyOf(s: Session, t: Session, id: Id) {
    && t.pending == s.pending && t.acknowledged == s.acknowledged
    && forall other :: other != id ==> Durable(t.disk, other) == Durable(s.disk, other)
  }

  /** A write for the attempt changes nothing but it. */
  lemma NotedOnly(s: Session, a: Record, state: State, r: Record)
    requires Consistent(s.disk) && Stands(s, a, state) && !Terminal(state)
    requires r.identity == a.identity && Rank(state) <= Rank(r.state)
    ensures var (t, w) := Noted(s, r, NoFault);
      && w == Success(r) && t == s.(disk := t.disk) && OnlyOf(s, t, IdOf(a))
      && StateOf(t.disk, IdOf(a)) == Some(r.state) && Durable(t.disk, IdOf(a)).value.identity == a.identity
      && (Terminal(r.state) ==> Durable(t.disk, IdOf(a)) == Some(r))
      && t.disk.runs == s.disk.runs && t.disk.artifacts == s.disk.artifacts
  {
    hide Durable, Recorded, Consistent;
    NotedWorks(s, r);
    assert s.pending - {IdOf(a)} == s.pending;
  }

  lemma StandsUncancelled(s: Session, a: Record, state: State)
    requires Stands(s, a, state)
    ensures IsCancelled(s, a) <==> state == Cancelled
  {
    hide Durable;
  }

  lemma GuardedIsConsistent(s: Session)
    requires Guarded(s)
    ensures Consistent(s.disk)
  {
  }

  /** Saving the row of a run leaves every attempt where it was. */
  lemma SavingWorks(s: Session, row: RunRow, a: Record)
    requires Guarded(s) && PhaseAttempt(s.phase) == Some(a) && a.identity.run == row.run && row.run !in s.disk.runs
    ensures var (disk, saved) := Saved(s.disk, row, NoFault);
      && saved && Consistent(disk) && disk.runs == s.disk.runs[row.run := row]
      && disk.artifacts == s.disk.artifacts[row.run := row]
      && forall id :: Durable(disk, id) == Durable(s.disk, id)
  {
    hide Durable;
    SaveKeepsSound(s.disk, row, IdOf(a), NoFault);
    SavedAside(s.disk, row, NoFault);
    var disk := Saved(s.disk, row, NoFault).0;
    forall id ensures Durable(disk, id) == Durable(s.disk, id) { SameManifests(s.disk, disk, id); }
  }

  lemma AdmissionRecords(s: Session, attempt: Record, now: nat)
    requires Guarded(s) && Enabled(s, AdmitAct(attempt, now, NoFault, NoFault))
    ensures var t := Admit(s, attempt, now, NoFault, NoFault);
      && Guarded(t) && t.phase == Admission(attempt) && Stands(t, attempt, Admitted)
      && OnlyOf(s, t, IdOf(attempt)) && t.outcomes == s.outcomes && t.disk.runs == s.disk.runs
  {
    ActGuarded(s, AdmitAct(attempt, now, NoFault, NoFault));
    hide Durable, Recorded, Sound, Forward;
    NotedWorks(s, attempt);
  }

  lemma RunningRecords(s: Session)
    requires Guarded(s) && s.phase.Admission? && Stands(s, s.phase.attempt, Admitted)
    ensures var a := s.phase.attempt;
      var t := MarkRunning(s, NoFault);
      && Guarded(t) && t.phase == Executing(a.(state := Running)) && Stands(t, a, Running)
      && OnlyOf(s, t, IdOf(a)) && t.outcomes == s.outcomes && t.disk.runs == s.disk.runs
  {
    ActGuarded(s, MarkRunningAct(NoFault));
    GuardedIsConsistent(s);
    StandsUncancelled(s, s.phase.attempt, Admitted);
    NotedOnly(s, s.phase.attempt, Admitted, s.phase.attempt.(state := Running));
    hide Durable, Noted, IsCancelled, OnlyOf, Guarded, Forward;
  }

  /** Completing the attempt after its row was saved. */
  lemma CompletesSaved(s: Session, saved: Session, a: Record, row: RunRow, now: nat)
    requires Stands(s, a, Running) && Consistent(saved.disk) && saved == s.(disk := saved.disk)
    requires forall id :: Durable(saved.disk, id) == Durable(s.disk, id)
    ensures var (t, w) := Noted(saved, CompletedRecord(a, now, row.artifact), NoFault);
      && w.Success? && t == s.(disk := t.disk) && OnlyOf(s, t, IdOf(a))
      && Durable(t.disk, IdOf(a)) == At(t.disk.attempts, IdOf(a)) == Some(CompletedRecord(a, now, row.artifact))
      && t.disk.runs == saved.disk.runs && t.disk.artifacts == saved.disk.artifacts
  {
    hide Durable, Recorded, Consistent, Noted;
    NotedWorks(saved, CompletedRecord(a, now, row.artifact));
    assert s.pending - {IdOf(a)} == s.pending;
  }

  /** A publishable result is saved and indexed, and its attempt completed with it. */
  lemma PublicationRecords(s: Session, now: nat)
    requires Guarded(s) && s.phase.Returned? && Stands(s, s.phase.attempt, Running)
    requires s.phase.event.ResultEvent? && s.phase.event.publishable
    ensures var a, row := s.phase.attempt, s.phase.event.row;
      var t := Publish(s, now, NoFault, NoFault);
      && Guarded(t) && t.phase == Leaving(a, View) && OnlyOf(s, t, IdOf(a)) && t.outcomes == s.outcomes
      && t.disk.runs == s.disk.runs[row.run := row] && row.run in t.disk.artifacts && t.disk.artifacts[row.run] == row
      && Durable(t.disk, IdOf(a))
         == At(t.disk.attempts, IdOf(a))
         == Some(a.(state := Completed, terminalAt := Some(now), artifact := Some(row.artifact), persisted := true))
  {
    hide Durable, Noted, IsCancelled, Forward, Saved, OnlyOf, Sound;
    PublishGuarded(s, now, NoFault, NoFault);
    var a, row := s.phase.attempt, s.phase.event.row;
    SavingWorks(s, row, a);
    StandsUncancelled(s, a, Running);
    var saved := s.(disk := Saved(s.disk, row, NoFault).0);
    CompletesSaved(s, saved, a, row, now);
    var noted := Noted(saved, CompletedRecord(a, now, row.artifact), NoFault).0;
    OnlyOfLater(s, noted, Publish(s, now, NoFault, NoFault), IdOf(a));
  }

  /** A worker's cancelled event closes the attempt as cancelled. */
  lemma CancelledEventRecords(s: Session, now: nat)
    requires Guarded(s) && s.phase.Returned? && Stands(s, s.phase.attempt, Running) && s.phase.event.CancelledEvent?
    ensures var a := s.phase.attempt;
      var t := Publish(s, now, NoFault, NoFault);
      && Guarded(t) && t.phase.Raised? && IdOf(t.phase.attempt) == IdOf(a) && Marked(t, IdOf(a))
      && OnlyOf(s, t, IdOf(a)) && t.outcomes == s.outcomes && t.disk.runs == s.disk.runs
      && Durable(t.disk, IdOf(a)).value.terminalAt == Some(now)
      && Durable(t.disk, IdOf(a)).value.identity == a.identity
  {
    PublishGuarded(s, now, NoFault, NoFault);
    GuardedIsConsistent(s);
    StandsUncancelled(s, s.phase.attempt, Running);
    NotedOnly(s, s.phase.attempt, Running, CancelledRecord(s.phase.attempt, now));
    hide Durable, Noted, IsCancelled, OnlyOf, Guarded, Forward;
  }

  /** An error of an attempt that is not cancelled closes it as failed, and is answered as itself
      from before publication and as a failure to persist from there on. */
  lemma FailureRecords(s: Session, now: nat)
    requires Guarded(s) && s.phase.Raised? && Stands(s, s.phase.attempt, Running)
    ensures var a := s.phase.attempt;
      var t := Handle(s, now, NoFault);
      && Guarded(t) && t.phase == Leaving(a, if s.phase.publishing then PersistenceFailed else s.phase.error)
      && OnlyOf(s, t, IdOf(a)) && t.outcomes == s.outcomes && t.disk.runs == s.disk.runs
      && Durable(t.disk, IdOf(a)).Some?
      && var r := Durable(t.disk, IdOf(a)).value;
         && r.state == Failed && r.terminalAt == Some(now) && r.artifact == s.phase.artifact && !r.persisted
         && r.identity == a.identity
  {
    ActGuarded(s, HandleAct(now, NoFault));
    GuardedIsConsistent(s);
    StandsUncancelled(s, s.phase.attempt, Running);
    NotedOnly(s, s.phase.attempt, Running, FailedRecord(s.phase.attempt, now, s.phase.artifact));
    hide Durable, Noted, IsCancelled, OnlyOf, Guarded, Forward;
  }

  /** How a run that nobody cancels ends: its answer and the state of its attempt. */
  function Ending(event: Option<ExecutionEvent>): (Outcome, State) {
    match event
    case None => (Reraised, Failed)
    case Some(CancelledEvent) => (RunCancelled, Cancelled)
    case Some(FailedEvent) => (RunFailed, Failed)
    case Some(UnexpectedEvent) => (PersistenceFailed, Failed)
    case Some(ResultEvent(_, publishable)) => if publishable then (View, Completed) else (PersistenceFailed, Failed)
  }

  /** The regions of such a run. */
  function Course(attempt: Record, event: Option<ExecutionEvent>, now: nat): seq<Act> {
    [AdmitAct(attempt, now, NoFault, NoFault), MarkRunningAct(NoFault)] + Closing(event, now)
  }

  function Closing(event: Option<ExecutionEvent>, now: nat): seq<Act> {
    match event
    case None => [RaiseAct, HandleAct(now, NoFault), LeaveAct]
    case Some(e) => [ReturnAct(e)] + Publishing(e, now)
  }

  function Publishing(e: ExecutionEvent, now: nat): seq<Act> {
    [PublishAct(now, NoFault, NoFault)]
    + if Ending(Some(e)).0 == View then [LeaveAct] else [HandleAct(now, NoFault), LeaveAct]
  }

  /** What such a run leaves behind. */
  ghost predicate Concluded(s: Session, t: Session, a: Record, event: Option<ExecutionEvent>, now: nat) {
    && t.phase == Idle && t.outcomes == s.outcomes[IdOf(a) := Ending(event).0] && OnlyOf(s, t, IdOf(a))
    && Durable(t.disk, IdOf(a)).Some?
    && var r := Durable(t.disk, IdOf(a)).value;
    && r.identity == a.identity && r.state == Ending(event).1 && r.terminalAt == Some(now)
    && if Ending(event).0 == View then
         var row := event.value.row;
         && r.persisted && r.artifact == Some(row.artifact) && t.disk.runs == s.disk.runs[row.run := row]
         && (Eligible(t.disk, row) <==> row.accepted)
       else t.disk.runs == s.disk.runs
  }

  lemma LeavesAlone(s: Session)
    requires s.phase.Leaving?
    ensures Acts(s, [LeaveAct])
    ensures Finally(s, [LeaveAct])
      == s.(phase := Idle, outcomes := s.outcomes[IdOf(s.phase.attempt) := s.phase.outcome])
  {
    assert Acts(Next(s, LeaveAct), []) && Finally(Next(s, LeaveAct), []) == Next(s, LeaveAct);
    FirstAct(s, LeaveAct, []);
    assert [LeaveAct] + [] == [LeaveAct];
  }

  /** An error from the execution on closes the run as failed. */
  lemma FailedRunConcludes(s: Session, a: Record, event: Option<ExecutionEvent>, now: nat)
    requires Guarded(s) && s.phase.Raised? && Stands(s, s.phase.attempt, Running)
      && s.phase.attempt.identity == a.identity
    requires Ending(event).1 == Failed
    requires Ending(event).0 == if s.phase.publishing then PersistenceFailed else s.phase.error
    ensures var acts := [HandleAct(now, NoFault), LeaveAct];
      Acts(s, acts) && Concluded(s, Finally(s, acts), a, event, now)
  {
    hide Handle, Guarded, Stands, Durable, OnlyOf, Next, Enabled, Acts, Finally, Eligible;
    FailureRecords(s, now);
    var t := Handle(s, now, NoFault);
    LeavesAlone(t);
    FirstHandle(s, now, NoFault, [LeaveAct]);
    assert [HandleAct(now, NoFault)] + [LeaveAct] == [HandleAct(now, NoFault), LeaveAct];
    OnlyOfLater(s, t, Finally(s, [HandleAct(now, NoFault), LeaveAct]), IdOf(a));
  }

  lemma OnlyOfLater(s: Session, t: Session, u: Session, id: Id)
    requires OnlyOf(s, t, id) && (OnlyOf(t, u, id) || u == t.(phase := u.phase, outcomes := u.outcomes))
    ensures OnlyOf(s, u, id)
  {
    hide Durable;
  }

  lemma ViewConcludes(s: Session, a: Record, event: ExecutionEvent, now: nat)
    requires Guarded(s) && s.phase.Returned? && s.phase.event == event && Stands(s, s.phase.attempt, Running)
    requires s.phase.attempt.identity == a.identity && event.ResultEvent? && event.publishable
    requires event.row.run == a.identity.run
    ensures Acts(s, Publishing(event, now)) && Concluded(s, Finally(s, Publishing(event, now)), a, Some(event), now)
  {
    hide Publish, Guarded, Stands, Durable, OnlyOf, Eligible, Next, Enabled, Acts, Finally;
    PublicationRecords(s, now);
    var t := Publish(s, now, NoFault, NoFault);
    LeavesAlone(t);
    EligibleIffAccepted(t, IdOf(a), event.row);
    FirstPublish(s, now, NoFault, NoFault, [LeaveAct]);
    OnlyOfLater(s, t, Finally(s, Publishing(event, now)), IdOf(a));
  }

  /** The one attempt of an indexed run decides whether the run is eligible. */
  lemma EligibleIffAccepted(t: Session, id: Id, row: RunRow)
    requires Guarded(t) && Durable(t.disk, id).Some? && Durable(t.disk, id) == At(t.disk.attempts, id)
    requires Done(Durable(t.disk, id).value) && Durable(t.disk, id).value.identity.run == row.run
    ensures Eligible(t.disk, row) <==> row.accepted
  {
    forall k | k in t.disk.attempts && t.disk.attempts[k].identity.run == row.run ensures k == id {
      IndexedOwns(t.disk, k);
      SoleOwner(t.disk, k, id);
    }
  }

  lemma CancelledConcludes(s: Session, a: Record, event: ExecutionEvent, now: nat)
    requires Guarded(s) && s.phase.Returned? && s.phase.event == event && Stands(s, s.phase.attempt, Running)
    requires s.phase.attempt.identity == a.identity && event.CancelledEvent?
    ensures Acts(s, Publishing(event, now)) && Concluded(s, Finally(s, Publishing(event, now)), a, Some(event), now)
  {
    hide Publish, Guarded, Stands, OnlyOf, Eligible, Next, Enabled, Acts, Finally, Durable, Recorded;
    CancelledEventRecords(s, now);
    var t := Publish(s, now, NoFault, NoFault);
    MarkedIsCancelled(t, t.phase.attempt);
    HandledCancelled(t, now, NoFault);
    FirstPublish(s, now, NoFault, NoFault, [HandleAct(now, NoFault), LeaveAct]);
    OnlyOfLater(s, t, Finally(s, Publishing(event, now)), IdOf(a));
  }

  /** The other events, and a result that cannot be published, raise before anything is written. */
  lemma RaisesAtOnce(s: Session, event: ExecutionEvent, now: nat)
    requires s.phase.Returned? && s.phase.event == event && !IsCancelled(s, s.phase.attempt)
    requires Ending(Some(event)).1 == Failed
    ensures var t := Publish(s, now, NoFault, NoFault);
      && t == s.(phase := t.phase) && t.phase.Raised? && t.phase.attempt == s.phase.attempt
      && Ending(Some(event)).0 == if t.phase.publishing then PersistenceFailed else t.phase.error
  {
    hide IsCancelled;
  }

  lemma FailedConcludes(s: Session, a: Record, event: ExecutionEvent, now: nat)
    requires Guarded(s) && s.phase.Returned? && s.phase.event == event && Stands(s, s.phase.attempt, Running)
    requires s.phase.attempt.identity == a.identity && Ending(Some(event)).1 == Failed
    ensures Acts(s, Publishing(event, now)) && Concluded(s, Finally(s, Publishing(event, now)), a, Some(event), now)
  {
    hide Publish, Guarded, Durable, OnlyOf, Eligible, Next, Enabled, Acts, Finally, IsCancelled;
    PublishGuarded(s, now, NoFault, NoFault);
    StandsUncancelled(s, s.phase.attempt, Running);
    RaisesAtOnce(s, event, now);
    var t := Publish(s, now, NoFault, NoFault);
    FailedRunConcludes(t, a, Some(event), now);
    FirstPublish(s, now, NoFault, NoFault, [HandleAct(now, NoFault), LeaveAct]);
    SameWorld(s, t, Finally(s, Publishing(event, now)), IdOf(a));
  }

  lemma SameWorld(s: Session, t: Session, u: Session, id: Id)
    requires t == s.(phase := t.phase) && OnlyOf(t, u, id)
    ensures OnlyOf(s, u, id)
  {
    hide Durable;
  }

  lemma ExecutingConcludes(s: Session, a: Record, event: Option<ExecutionEvent>, now: nat)
    requires Guarded(s) && s.phase.Executing? && Stands(s, s.phase.attempt, Running)
    requires s.phase.attempt.identity == a.identity
    requires event.Some? && event.value.ResultEvent? && event.value.publishable ==>
      event.value.row.run == a.identity.run
    ensures Acts(s, Closing(event, now)) && Concluded(s, Finally(s, Closing(event, now)), a, event, now)
  {
    var act := if event.None? then RaiseAct else ReturnAct(event.value);
    ActGuarded(s, act);
    var t := Next(s, act);
    if event.None? {
      FailedRunConcludes(t, a, event, now);
    } else if Ending(event).1 == Failed {
      FailedConcludes(t, a, event.value, now);
    } else if event.value.CancelledEvent? {
      CancelledConcludes(t, a, event.value, now);
    } else {
      ViewConcludes(t, a, event.value, now);
    }
    hide Next, Guarded, Durable, OnlyOf, Eligible, Stands, Acts, Finally, Concluded;
    var rest := if event.None? then [HandleAct(now, NoFault), LeaveAct] else Publishing(event.value, now);
    FirstAct(s, act, rest);
    assert [act] + rest == Closing(event, now);
    SameWorld(s, t, Finally(t, rest), IdOf(a));
  }

  /** A run from its admission on, over storage that works and undisturbed by others, answers as its
      evaluation ended and closes its attempt so; only a view leaves a row, and that is eligible
      exactly if its statuses are accepted. */
  lemma UndisturbedRun(s: Session, attempt: Record, event: Option<ExecutionEvent>, now: nat)
    requires Guarded(s) && Enabled(s, AdmitAct(attempt, now, NoFault, NoFault))
    requires event.Some? && event.value.ResultEvent? && event.value.publishable ==>
      event.value.row.run == attempt.identity.run
    ensures Acts(s, Course(attempt, event, now))
    ensures Concluded(s, Finally(s, Course(attempt, event, now)), attempt, event, now)
  {
    hide Admit, MarkRunning, Guarded, Durable, OnlyOf, Concluded, Acts, Finally;
    var admit, mark := AdmitAct(attempt, now, NoFault, NoFault), MarkRunningAct(NoFault);
    AdmissionRecords(s, attempt, now);
    var t := Admit(s, attempt, now, NoFault, NoFault);
    RunningRecords(t);
    var u := MarkRunning(t, NoFault);
    ExecutingConcludes(u, attempt, event, now);
    FirstAct(t, mark, Closing(event, now));
    FirstAct(s, admit, [mark] + Closing(event, now));
    assert [admit] + ([mark] + Closing(event, now)) == Course(attempt, event, now);
    ConcludedEarlier(s, t, u, Finally(u, Closing(event, now)), attempt, event, now);
  }

  lemma ConcludedEarlier(s: Session, t: Session, u: Session, v: Session, a: Record, event: Option<ExecutionEvent>,
      now: nat)
    requires OnlyOf(s, t, IdOf(a)) && OnlyOf(t, u, IdOf(a)) && Concluded(u, v, a, event, now)
    requires s.outcomes == u.outcomes && s.disk.runs == u.disk.runs
    ensures Concluded(s, v, a, event, now)
  {
    hide Durable, Eligible;
  }

  // ---- Cut writes -----------------------------------------------------------------------------

  /** A write cut before its manifest leaves the disk as it was; one cut before the commit has moved
      the durable record and not the index. The caller sees a failure both times. */
  lemma CutWrite(d: Disk, r: Record, fault: Fault)
    requires Consistent(d) && fault != NoFault
    requires Durable(d, IdOf(r)).Some? ==>
      Durable(d, IdOf(r)).value.identity == r.identity && Open(d, IdOf(r))
      && Rank(Durable(d, IdOf(r)).value.state) <= Rank(r.state)
    ensures var (d', w) := Recorded(d, r, fault);
      && w == Failure(StorageFault) && d'.attempts == d.attempts
      && (fault == BeforeReplace ==> d' == d)
      && (fault == BeforeCommit ==> Durable(d', IdOf(r)).Some? && Durable(d', IdOf(r)).value.state == r.state
                                    && Durable(d', IdOf(r)).value.identity == r.identity)
  {
    hide Consistent, Durable;
    var id := IdOf(r);
    ManifestReads(d, id);
    var durable := Durable(d, id);
    WinnerFollows(d, r);
    var w := Winner(durable, r).value;
    if durable != Some(w) { WriteManifest(d, w); }
  }

  /** An admission whose write fails executes nothing: it is answered as a failure to persist, and the
      attempt is recorded as failed, durably if that write works and in memory if not. */
  lemma AdmissionCut(s: Session, attempt: Record, now: nat, fault: Fault, auditFault: Fault)
    requires Guarded(s) && Enabled(s, AdmitAct(attempt, now, fault, auditFault)) && fault != NoFault
    ensures var id := IdOf(attempt);
      var t := Admit(s, attempt, now, fault, auditFault);
      && t.phase == Idle && t.outcomes == s.outcomes[id := PersistenceFailed] && t.disk.runs == s.disk.runs
      && (if auditFault == NoFault then id !in t.pending && StateOf(t.disk, id) == Some(Failed)
          else id in t.pending && t.pending[id].state == Failed)
      && (forall other :: other != id ==> Durable(t.disk, other) == Durable(s.disk, other))
  {
    GuardedIsConsistent(s);
    CutWrite(s.disk, attempt, fault);
    RecordedKeeps(s.disk, attempt, fault);
    hide Recorded, Durable, Guarded, Consistent;
    var t := Noted(s, attempt, fault).0;
    var failed := FailedRecord(attempt, now, None);
    if auditFault == NoFault {
      NotedWorks(t, failed);
    } else {
      CutWrite(t.disk, failed, auditFault);
      RecordedKeeps(t.disk, failed, auditFault);
    }
  }

  /** An attempt that cannot be marked as running executes nothing: the run raises before publication,
      and is answered with that error, or as a failure to persist if it cannot be recorded either. */
  lemma RunningCut(s: Session, fault: Fault)
    requires s.phase.Admission? && fault != NoFault && !IsCancelled(s, s.phase.attempt)
    ensures var t := MarkRunning(s, fault);
      && t.phase == Raised(s.phase.attempt, false, None, Reraised) && t.outcomes == s.outcomes
      && forall later, handlerFault :: !IsCancelled(t, s.phase.attempt) ==>
           var u := Handle(t, later, handlerFault).phase;
           u.Leaving? && u.attempt == s.phase.attempt && u.outcome in {Reraised, PersistenceFailed}
  {
    hide IsCancelled, Durable;
  }

  /** A publication of which any write fails raises as one, with the artifact of the result, and the
      run is then answered as a failure to persist. */
  lemma PublicationCut(s: Session, now: nat, saveFault: Fault, fault: Fault)
    requires s.phase.Returned? && s.phase.event.ResultEvent? && s.phase.event.publishable
    requires !IsCancelled(s, s.phase.attempt) && (saveFault != NoFault || fault != NoFault)
    ensures var t := Publish(s, now, saveFault, fault);
      && t.phase == Raised(s.phase.attempt, true, Some(s.phase.event.row.artifact), Reraised)
      && forall later, handlerFault :: !IsCancelled(t, s.phase.attempt) ==>
           Handle(t, later, handlerFault).phase == Leaving(s.phase.attempt, PersistenceFailed)
  {
    hide IsCancelled, Durable;
  }

  /** A crash forgets what only memory held and leaves the disk; the next admission is possible. */
  lemma CrashDoes(s: Session)
    ensures var t := Next(s, CrashAct);
      t.phase == Idle && t.pending == map[] && t.disk == s.disk && t.acknowledged == s.acknowledged
  {
  }
}
