/** Durable run-attempt records: which record wins, what one write does to the canonical
    manifests and to the disposable index, and what every sequence of writes keeps. */
module Attempts {
  import opened Wrappers

  type Id = nat

  datatype State = Admitted | Running | Completed | Failed | Cancelled | Interrupted | TimedOut

  /** The immutable admission fields. */
  datatype Identity = Identity(
    attempt: Id, run: Id, caseId: Id, engineeringHash: string, contextHash: string,
    admittedAt: nat, protocol: string)

  datatype Record = Record(
    identity: Identity,
    state: State,
    terminalAt: Option<nat>,
    reason: Option<string>,
    artifact: Option<Id>,
    persisted: bool)

  predicate Terminal(s: State) {
    s != Admitted && s != Running
  }

  datatype StoreError = DifferingIdentity | StorageFault

  /** `_attempt_winner`: immutable admission identity, first terminal disposition. */
  function Winner(existing: Option<Record>, proposed: Record): Result<Record, StoreError> {
    match existing
    case None => Success(proposed)
    case Some(e) =>
      if e.identity != proposed.identity then Failure(DifferingIdentity)
      else if Terminal(e.state) then Success(e)
      else if e.state == Running && proposed.state == Admitted then Success(e)
      else Success(proposed)
  }

  /** How far an attempt has come. */
  function Rank(s: State): nat {
    match s
    case Admitted => 0
    case Running => 1
    case _ => 2
  }

  /** `later` may follow `earlier` durably: one identity, no step back, and nothing after a
      terminal record. */
  predicate Follows(earlier: Record, later: Record) {
    && later.identity == earlier.identity
    && Rank(earlier.state) <= Rank(later.state)
    && (Terminal(earlier.state) ==> later == earlier)
  }

  lemma FollowsTransitive(a: Record, b: Record, c: Record)
    requires Follows(a, b) && Follows(b, c)
    ensures Follows(a, c)
  {
  }

  /** Exactly when two manifests of one attempt resolve to the same state in either order. */
  lemma MergeOrderMatters(a: Record, b: Record)
    requires a.identity == b.identity
    ensures Winner(Some(a), b).value.state == Winner(Some(b), a).value.state
       <==> !(Terminal(a.state) && Terminal(b.state) && a.state != b.state)
  {
  }

  // ---- The disk -------------------------------------------------------------------------

  /** A run's row in the index: its case, its artifact, and whether its four statuses are
      the accepted ones. */
  datatype RunRow = RunRow(run: Id, caseId: Id, createdAt: nat, artifact: Id, accepted: bool)

  /** Canonical manifests at the current and at the pre-portability path, run artifacts, and
      the SQLite tables. */
  datatype Disk = Disk(
    manifests: map<Id, Record>,
    legacy: map<Id, Record>,
    artifacts: map<Id, RunRow>,
    attempts: map<Id, Record>,
    runs: map<Id, RunRow>)

  function At(m: map<Id, Record>, id: Id): Option<Record> {
    if id in m then Some(m[id]) else None
  }

  /** `_read_attempt_manifest`: the current path first, then the legacy one. */
  function Manifest(d: Disk, id: Id): Result<Option<Record>, StoreError> {
    match At(d.legacy, id)
    case None => Success(At(d.manifests, id))
    case Some(raw) =>
      var w :- Winner(At(d.manifests, id), raw);
      Success(Some(w))
  }

  /** Where a write can be cut short: before the manifest is replaced, or between the
      replacement and the commit of the index transaction. */
  datatype Fault = NoFault | BeforeReplace | BeforeCommit

  /** `record_attempt` under the index's write reservation. */
  function Recorded(d: Disk, proposed: Record, fault: Fault): (Disk, Result<Record, StoreError>) {
    var id := proposed.identity.attempt;
    match Manifest(d, id)
    case Failure(e) => (d, Failure(e))
    case Success(durable) =>
      match Winner(if durable.Some? then durable else At(d.attempts, id), proposed)
      case Failure(e) => (d, Failure(e))
      case Success(winner) =>
        if fault == BeforeReplace then (d, Failure(StorageFault))
        else
          var written := if durable == Some(winner) then d else d.(manifests := d.manifests[id := winner]);
          if fault == BeforeCommit then (written, Failure(StorageFault))
          else (written.(attempts := written.attempts[id := winner]), Success(winner))
  }

  /** The durable record of an attempt. */
  function Durable(d: Disk, id: Id): Option<Record> {
    match Manifest(d, id)
    case Success(r) => r
    case Failure(_) => None
  }

  /** Where the manifest of an attempt is lost, its index row stands in for it: a write for the
      attempt brings back a terminal record, and refuses another identity. */
  lemma IndexStandsIn(d: Disk, r: Record, fault: Fault)
    requires Manifest(d, r.identity.attempt) == Success(None) && r.identity.attempt in d.attempts
    ensures var (d', w) := Recorded(d, r, fault);
      var id, row := r.identity.attempt, d.attempts[r.identity.attempt];
      && (row.identity != r.identity ==> w == Failure(DifferingIdentity) && d' == d)
      && (row.identity == r.identity && Terminal(row.state) && fault == NoFault ==>
            w == Success(row) && Durable(d', id) == Some(row) && d'.attempts[id] == row)
  {
  }

  // ---- What every store keeps -------------------------------------------------------------

  predicate Filed(m: map<Id, Record>) {
    forall id :: id in m ==> m[id].identity.attempt == id
  }

  /** Files carry their own identifier; a current manifest goes on from the legacy one; the
      index is never ahead of the manifest. */
  predicate Consistent(d: Disk) {
    && Filed(d.manifests) && Filed(d.legacy) && Filed(d.attempts)
    && (forall id :: id in d.manifests && id in d.legacy ==>
          Follows(d.legacy[id], d.manifests[id]) && !Terminal(d.legacy[id].state))
    && (forall id :: id in d.attempts ==>
          Durable(d, id).Some? && Follows(d.attempts[id], Durable(d, id).value))
  }

  /** Reading both paths never fails in a consistent store, and either order of merging them
      gives the same state; when it is terminal, the same record. */
  lemma MergeOrderIrrelevant(d: Disk, id: Id)
    requires Consistent(d)
    ensures Manifest(d, id).Success?
    ensures id in d.manifests && id in d.legacy ==>
      var current, raw := d.manifests[id], d.legacy[id];
      && Winner(Some(current), raw).Success? && Winner(Some(raw), current).Success?
      && Winner(Some(current), raw).value.state == Winner(Some(raw), current).value.state == current.state
      && (Terminal(current.state) ==> Winner(Some(current), raw) == Winner(Some(raw), current) == Success(current))
  {
  }

  /** The record may be written over what is durable for its attempt. */
  predicate Writable(d: Disk, winner: Record) {
    var durable := Durable(d, winner.identity.attempt);
    durable.Some? ==> Follows(durable.value, winner) && durable.value != winner
  }

  lemma WriteManifest(d: Disk, winner: Record)
    requires Consistent(d) && Writable(d, winner)
    ensures var id := winner.identity.attempt;
            var d' := d.(manifests := d.manifests[id := winner]);
            && Consistent(d')
            && Durable(d', id).Some? && Follows(Durable(d', id).value, winner) && Follows(winner, Durable(d', id).value)
            && (Durable(d, id).Some? ==> Follows(Durable(d, id).value, Durable(d', id).value))
            && (forall other :: other != id ==> Durable(d', other) == Durable(d, other))
  {
    var id := winner.identity.attempt;
    var d' := d.(manifests := d.manifests[id := winner]);
    forall other | other != id ensures Durable(d', other) == Durable(d, other) { }
    forall k | k in d'.attempts ensures Durable(d', k).Some? && Follows(d'.attempts[k], Durable(d', k).value) {
      if k == id { FollowsTransitive(d.attempts[k], Durable(d, k).value, Durable(d', k).value); }
    }
  }

  lemma WriteIndex(d: Disk, winner: Record)
    requires Consistent(d) && Durable(d, winner.identity.attempt).Some?
    requires Follows(winner, Durable(d, winner.identity.attempt).value)
    ensures var d' := d.(attempts := d.attempts[winner.identity.attempt := winner]);
            Consistent(d') && forall id :: Durable(d', id) == Durable(d, id)
  {
    hide Manifest;
    var d' := d.(attempts := d.attempts[winner.identity.attempt := winner]);
    forall id ensures Durable(d', id) == Durable(d, id) { SameManifests(d, d', id); }
  }

  lemma SameManifests(d: Disk, d': Disk, id: Id)
    requires At(d.manifests, id) == At(d'.manifests, id) && At(d.legacy, id) == At(d'.legacy, id)
    ensures Durable(d', id) == Durable(d, id)
  {
  }

  /** Every attempt's durable record only moves forward. */
  ghost predicate Forward(d: Disk, d': Disk) {
    forall id :: Durable(d, id).Some? ==> Durable(d', id).Some? && Follows(Durable(d, id).value, Durable(d', id).value)
  }

  /** One write, whole or cut short at either point, by any store: the store stays
      consistent, the written attempt only moves forward, and nothing else moves. */
  lemma RecordedKeeps(d: Disk, proposed: Record, fault: Fault)
    requires Consistent(d)
    ensures var d' := Recorded(d, proposed, fault).0;
            && Consistent(d') && Forward(d, d')
            && (forall id :: id != proposed.identity.attempt ==>
                  Durable(d', id) == Durable(d, id) && At(d'.attempts, id) == At(d.attempts, id))
            && (Durable(d, proposed.identity.attempt).None? && Durable(d', proposed.identity.attempt).Some? ==>
                  Durable(d', proposed.identity.attempt).value.identity == proposed.identity)
            && d.attempts.Keys <= d'.attempts.Keys
            && d'.runs == d.runs && d'.artifacts == d.artifacts && d'.legacy == d.legacy
  {
    hide Consistent, Durable;
    var id := proposed.identity.attempt;
    ManifestReads(d, id);
    var durable := Durable(d, id);
    var winner := Winner(if durable.Some? then durable else At(d.attempts, id), proposed);
    if winner.Success? && fault != BeforeReplace {
      WinnerFollows(d, proposed);
      var w := winner.value;
      var written := if durable == Some(w) then d else d.(manifests := d.manifests[id := w]);
      if durable != Some(w) { WriteManifest(d, w); }
      if fault == NoFault { WriteIndex(written, w); }
    }
  }

  lemma ManifestReads(d: Disk, id: Id)
    requires Consistent(d)
    ensures Manifest(d, id) == Success(Durable(d, id))
    ensures id in d.attempts ==> Durable(d, id).Some?
  {
  }

  lemma WinnerFollows(d: Disk, proposed: Record)
    requires Consistent(d)
    requires Winner(Durable(d, proposed.identity.attempt), proposed).Success?
    ensures var id := proposed.identity.attempt;
            var w := Winner(Durable(d, id), proposed).value;
            && w.identity.attempt == id
            && (Durable(d, id) != Some(w) ==> Writable(d, w))
  {
    hide Durable;
  }

  /** What a successful write answers is then both durable state and index row. */
  lemma RecordedSucceeds(d: Disk, proposed: Record)
    requires Consistent(d)
    requires Durable(d, proposed.identity.attempt).Some? ==>
      Durable(d, proposed.identity.attempt).value.identity == proposed.identity
    ensures var (d', r) := Recorded(d, proposed, NoFault);
            && r.Success? && r.value.identity == proposed.identity
            && At(d'.attempts, proposed.identity.attempt) == Some(r.value)
            && Durable(d', proposed.identity.attempt).Some?
            && Durable(d', proposed.identity.attempt).value.state == r.value.state
            && (Terminal(r.value.state) ==> Durable(d', proposed.identity.attempt) == Some(r.value))
            && (match Durable(d, proposed.identity.attempt)
                case None => r.value == proposed
                case Some(before) =>
                  if Terminal(before.state) || (before.state == Running && proposed.state == Admitted)
                  then r.value == before else r.value == proposed)
  {
    hide Consistent, Durable;
    var id := proposed.identity.attempt;
    ManifestReads(d, id);
    var durable := Durable(d, id);
    WinnerFollows(d, proposed);
    var w := Winner(durable, proposed).value;
    var written := if durable == Some(w) then d else d.(manifests := d.manifests[id := w]);
    if durable != Some(w) { WriteManifest(d, w); }
    WriteIndex(written, w);
  }
}
