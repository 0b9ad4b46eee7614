/** Every sequence of writes by any number of processes: what the attempts keep, and when
    the last-valid answer can be trusted. */
module LastValid {
  import opened Wrappers
  import opened Attempts
  import opened Store

  /** One atomic effect on the shared disk, by any process. */
  datatype Step =
    | Propose(record: Record, fault: Fault)
    | SaveRun(row: RunRow, attempt: Id, fault: Fault)

  predicate RunFresh(d: Disk, run: Id) {
    && run !in d.runs && run !in d.artifacts
    && (forall id :: id in d.manifests.Keys + d.legacy.Keys + d.attempts.Keys && Durable(d, id).Some? ==>
          Durable(d, id).value.identity.run != run)
  }

  /** What callers do: a new attempt brings a fresh run identifier, and a run is saved only by
      the execution of an attempt whose admission was committed. */
  predicate Allowed(d: Disk, s: Step) {
    match s
    case Propose(r, _) => Durable(d, r.identity.attempt).Some? || RunFresh(d, r.identity.run)
    case SaveRun(row, a, _) => a in d.attempts && d.attempts[a].identity.run == row.run
  }

  function Effect(d: Disk, s: Step): Disk {
    match s
    case Propose(r, fault) => Recorded(d, r, fault).0
    case SaveRun(row, _, fault) => Saved(d, row, fault).0
  }

  /** A save that is not cut indexes the row of a new run and its artifact, and touches no attempt. */
  lemma SaveIndexes(d: Disk, row: RunRow, attempt: Id)
    requires row.run !in d.runs
    ensures var t := Effect(d, SaveRun(row, attempt, NoFault));
      && t.runs == d.runs[row.run := row] && t.artifacts == d.artifacts[row.run := row]
      && t.attempts == d.attempts && t.manifests == d.manifests && t.legacy == d.legacy
  {
  }

  /** A run that was executed for an attempt: some durable attempt carries its identifier. */
  predicate Owns(d: Disk, id: Id, run: Id) {
    Durable(d, id).Some? && Durable(d, id).value.identity.run == run
  }

  /** Every attempt of every indexed run is indexed too. */
  ghost predicate RunsIndexed(d: Disk) {
    && (forall k :: k in d.runs ==> d.runs[k].run == k)
    && (forall k, id :: (k in d.runs || k in d.artifacts) && Owns(d, id, k) ==> id in d.attempts)
    && (forall a, b, k :: Owns(d, a, k) && Owns(d, b, k) ==> a == b)
  }

  predicate Done(r: Record) {
    r.state == Completed && r.persisted
  }

  /** In a consistent store an eligible run whose attempt is indexed is durably completed
      and persisted. */
  lemma EligibleIsDone(d: Disk, row: RunRow, id: Id)
    requires Consistent(d) && Eligible(d, row) && Owns(d, id, row.run) && id in d.attempts
    ensures Done(Durable(d, id).value)
  {
  }

  /** Exactly when the last-valid filter can be trusted for a run with accepted statuses and
      one attempt: the attempt is indexed, or it is durably done anyway. */
  lemma FilterTrustworthy(d: Disk, row: RunRow, id: Id)
    requires Consistent(d) && row.accepted && Owns(d, id, row.run)
    requires forall other :: Owns(d, other, row.run) ==> other == id
    ensures (Eligible(d, row) ==> Done(Durable(d, id).value)) <==> id in d.attempts || Done(Durable(d, id).value)
  {
    if id !in d.attempts {
      forall other | other in d.attempts ensures d.attempts[other].identity.run == row.run ==> other == id {
        if d.attempts[other].identity.run == row.run { assert Owns(d, other, row.run); }
      }
    }
  }

  ghost predicate Sound(d: Disk) {
    Consistent(d) && RunsIndexed(d)
  }

  lemma StepKeepsSound(d: Disk, s: Step)
    requires Sound(d) && Allowed(d, s)
    ensures Sound(Effect(d, s)) && Forward(d, Effect(d, s))
  {
    match s
    case Propose(r, fault) => ProposeKeepsSound(d, r, fault);
    case SaveRun(row, a, fault) => SaveKeepsSound(d, row, a, fault);
  }

  lemma ProposeKeepsSound(d: Disk, r: Record, fault: Fault)
    requires Sound(d) && (Durable(d, r.identity.attempt).Some? || RunFresh(d, r.identity.run))
    ensures var d' := Recorded(d, r, fault).0; Sound(d') && Forward(d, d')
  {
    hide Durable, Recorded, Consistent;
    var d' := Recorded(d, r, fault).0;
    RecordedKeeps(d, r, fault);
    var id0 := r.identity.attempt;
    forall id, k | Owns(d', id, k)
      ensures Owns(d, id, k) || (id == id0 && Durable(d, id0).None? && k == r.identity.run)
    {
      if Durable(d, id).Some? { assert Follows(Durable(d, id).value, Durable(d', id).value); }
    }
    if Durable(d, id0).None? {
      forall id ensures !Owns(d, id, r.identity.run) { FreshUnowned(d, id, r.identity.run); }
    }
  }

  lemma FreshUnowned(d: Disk, id: Id, run: Id)
    requires RunFresh(d, run)
    ensures !Owns(d, id, run)
  {
  }

  lemma SaveKeepsSound(d: Disk, row: RunRow, a: Id, fault: Fault)
    requires Sound(d) && a in d.attempts && d.attempts[a].identity.run == row.run
    ensures var d' := Saved(d, row, fault).0; Sound(d') && Forward(d, d')
  {
    hide Durable;
    var d' := Saved(d, row, fault).0;
    RunRowsAside(d, d');
    IndexedOwns(d, a);
    forall id, k ensures Owns(d', id, k) <==> Owns(d, id, k) { }
    SelfFollows(d, d');
  }

  lemma SelfFollows(d: Disk, d': Disk)
    requires forall id :: Durable(d', id) == Durable(d, id)
    ensures Forward(d, d')
  {
    hide Durable;
  }

  lemma IndexedOwns(d: Disk, a: Id)
    requires Consistent(d) && a in d.attempts
    ensures Owns(d, a, d.attempts[a].identity.run)
  {
  }

  // ---- Whole runs ---------------------------------------------------------------------------

  ghost predicate Trace(d: Disk, steps: seq<Step>)
    decreases |steps|
  {
    steps == [] || (Allowed(d, steps[0]) && Trace(Effect(d, steps[0]), steps[1..]))
  }

  function After(d: Disk, steps: seq<Step>): Disk
    decreases |steps|
  {
    if steps == [] then d else After(Effect(d, steps[0]), steps[1..])
  }

  /** Over every interleaving of writes, from however many stores and cut short wherever they
      are, no attempt changes its admission identity, steps back, or changes once it is
      terminal; and the index stays behind the manifests. */
  lemma {:induction false} TraceKeepsSound(d: Disk, steps: seq<Step>)
    requires Sound(d) && Trace(d, steps)
    ensures Sound(After(d, steps)) && Forward(d, After(d, steps))
    decreases |steps|
  {
    hide Sound, Forward, Effect, Allowed;
    if steps == [] {
      ForwardReflexive(d);
    } else {
      StepKeepsSound(d, steps[0]);
      TraceKeepsSound(Effect(d, steps[0]), steps[1..]);
      ForwardTransitive(d, Effect(d, steps[0]), After(d, steps));
    }
  }

  /** Last-valid safety: in every state such writes can reach, the last-valid run of a case,
      if it was executed for an attempt, has a manifest that is completed and persisted. */
  lemma LastValidIsDone(d: Disk, steps: seq<Step>, caseId: Id, row: RunRow, id: Id)
    requires Sound(d) && Trace(d, steps)
    requires IsLatestValid(After(d, steps), caseId, row) && Owns(After(d, steps), id, row.run)
    ensures Done(Durable(After(d, steps), id).value)
  {
    hide Durable, Consistent, Trace, After, Allowed;
    TraceKeepsSound(d, steps);
    var now := After(d, steps);
    var k :| k in now.runs && now.runs[k] == row;
    EligibleIsDone(now, row, id);
  }

  lemma EmptyIsSound()
    ensures Sound(Disk(map[], map[], map[], map[], map[]))
  {
  }

  // ---- Rebuilding the index -----------------------------------------------------------------

  /** A finished rebuild indexes every attempt, so the filter can be trusted again. */
  lemma FinishedRebuildIsTrustworthy(d: Disk, row: RunRow, id: Id)
    requires Consistent(d) && Eligible(d, row) && Owns(d, id, row.run)
    requires forall a :: At(d.attempts, a) == Durable(d, a)
    ensures Done(Durable(d, id).value)
  {
    EligibleIsDone(d, row, id);
  }

  const OPEN_ATTEMPT := Record(Identity(1, 2, 3, "", "", 0, ""), Running, None, None, None, false)
  const SAVED_RUN := RunRow(2, 3, 0, 4, true)
  const BEFORE_REBUILD :=
    Disk(map[1 := OPEN_ATTEMPT], map[], map[2 := SAVED_RUN], map[1 := OPEN_ATTEMPT], map[2 := SAVED_RUN])
  const CUT_REBUILD := BEFORE_REBUILD.(attempts := map[])

  /** A rebuild that dies after the run rows exposes a run whose attempt never completed:
      the run row is back, its attempt row is not. */
  lemma CutRebuildExposes()
    ensures Sound(BEFORE_REBUILD) && !Eligible(BEFORE_REBUILD, SAVED_RUN)
    ensures Consistent(CUT_REBUILD) && Owns(CUT_REBUILD, 1, 2) && !Done(Durable(CUT_REBUILD, 1).value)
    ensures IsLatestValid(CUT_REBUILD, 3, SAVED_RUN)
  {
    assert CUT_REBUILD.runs[2] == SAVED_RUN;
    assert BEFORE_REBUILD.attempts[1] == OPEN_ATTEMPT;
  }
}
