/** The solver worker: one message loop, one thread per job, and the frames they send. */
module Worker {
  import opened Wrappers

  type RunId = nat

  datatype Message =
    | RunJob(run: RunId)
    | CancelRun(run: RunId)
    | ValidateRequest(id: nat)
    | Shutdown

  datatype Ending = Completed | Failed | Cancelled

  datatype Event =
    | Accepted(run: RunId)
    | Progress(run: RunId, sequence: nat)
    | Ended(run: RunId, sequence: nat, ending: Ending)
    | Fault(run: RunId)
    | Response(id: nat)

  /** A frame with the job thread that sent it; the message loop's own frames have none. */
  datatype Sent = Sent(job: Option<nat>, event: Event)

  /** Where a job's thread stands: nothing sent; acceptance sent; not cancelled at the first
      look; evaluating; result computed and not cancelled at the second look; its `finished`
      event set and the terminal frame still to be sent; over. */
  datatype Stage =
    | Starting | Admitted | Clear | Evaluating | Publishing
    | Reporting(ending: Ending) | Over(ending: Ending)

  /** `since` counts the messages read when the job was started. */
  datatype Job = Job(run: RunId, since: nat, cancelled: bool, finished: bool, sequence: nat, stage: Stage)

  /** `pending` is the message the loop has read, with whether it found the worker busy. The
      last job is the active one. */
  datatype Worker = Worker(
    open: bool,
    received: seq<Message>,
    pending: Option<(Message, bool)>,
    jobs: seq<Job>,
    output: seq<Sent>)

  const INITIAL := Worker(true, [], None, [], [])

  predicate Busy(w: Worker) {
    w.jobs != [] && !w.jobs[|w.jobs| - 1].finished
  }

  datatype Act =
    | Read(message: Message)
    | Handle
    | Step(job: nat, raises: bool)
    | Close

  predicate Enabled(w: Worker, act: Act) {
    match act
    case Read(_) => w.open && w.pending.None?
    case Handle => w.pending.Some?
    case Step(job, _) => job < |w.jobs| && !w.jobs[job].stage.Over?
    case Close => w.open && w.pending.None?
  }

  /** What the message loop does with the message it has read. */
  function Handled(w: Worker): Worker
    requires w.pending.Some?
  {
    var (message, busy) := w.pending.value;
    var w1 := w.(pending := None);
    match message
    case CancelRun(run) =>
      if busy && w.jobs != [] && w.jobs[|w.jobs| - 1].run == run then
        var last := |w.jobs| - 1;
        w1.(jobs := w.jobs[last := w.jobs[last].(cancelled := true)])
      else w1
    case Shutdown => w1.(open := false)
    case ValidateRequest(id) => w1.(output := w.output + [Sent(None, Response(id))])
    case RunJob(run) =>
      if busy then w1.(output := w.output + [Sent(None, Fault(run))])
      else w1.(jobs := w.jobs + [Job(run, |w.received|, false, false, 1, Starting)])
  }

  /** One step of a job's thread; `raises` says whether the calculation, or the preparation of
      its completed event, raises at this step. */
  function Stepped(j: Job, raises: bool): (Job, seq<Event>)
    requires !j.stage.Over?
  {
    match j.stage
    case Starting => (j.(stage := Admitted), [Accepted(j.run)])
    case Admitted =>
      if j.cancelled then (j.(finished := true, stage := Reporting(Cancelled)), [])
      else (j.(stage := Clear), [])
    case Clear => (j.(stage := Evaluating, sequence := j.sequence + 1), [Progress(j.run, j.sequence)])
    case Evaluating =>
      if raises then (j.(finished := true, stage := Reporting(Failed)), [])
      else if j.cancelled then (j.(finished := true, stage := Reporting(Cancelled)), [])
      else (j.(stage := Publishing), [])
    case Publishing => (j.(finished := true, stage := Reporting(if raises then Failed else Completed)), [])
    case Reporting(ending) => (j.(stage := Over(ending)), [Ended(j.run, j.sequence, ending)])
  }

  function Frames(job: nat, events: seq<Event>): seq<Sent> {
    seq(|events|, k requires 0 <= k < |events| => Sent(Some(job), events[k]))
  }

  function Next(w: Worker, act: Act): Worker
    requires Enabled(w, act)
  {
    match act
    case Read(message) => w.(received := w.received + [message], pending := Some((message, Busy(w))))
    case Handle => Handled(w)
    case Step(i, raises) =>
      var (j, events) := Stepped(w.jobs[i], raises);
      w.(jobs := w.jobs[i := j], output := w.output + Frames(i, events))
    case Close => w.(open := false)
  }

  predicate Runs(w: Worker, acts: seq<Act>)
    decreases |acts|
  {
    acts == [] || (Enabled(w, acts[0]) && Runs(Next(w, acts[0]), acts[1..]))
  }

  function After(w: Worker, acts: seq<Act>): Worker
    requires Runs(w, acts)
    decreases |acts|
  {
    if acts == [] then w else After(Next(w, acts[0]), acts[1..])
  }

  // ---- What each job has sent -----------------------------------------------------------------

  /** The events of one job's thread, in order. */
  function EventsOf(output: seq<Sent>, job: nat): seq<Event> {
    if output == [] then []
    else
      var last := output[|output| - 1];
      EventsOf(output[..|output| - 1], job) + if last.job == Some(job) then [last.event] else []
  }

  /** What a job's thread has sent at its stage. */
  function Expected(j: Job): seq<Event> {
    (if j.stage.Starting? then [] else [Accepted(j.run)])
    + (if j.sequence == 2 then [Progress(j.run, 1)] else [])
    + (if j.stage.Over? then [Ended(j.run, j.sequence, j.stage.ending)] else [])
  }

  predicate Shaped(j: Job) {
    && j.finished == (j.stage.Reporting? || j.stage.Over?)
    && match j.stage
       case Starting | Admitted | Clear => j.sequence == 1
       case Evaluating | Publishing => j.sequence == 2
       case Reporting(e) => (j.sequence == 1 && e == Cancelled) || j.sequence == 2
       case Over(e) => (j.sequence == 1 && e == Cancelled) || j.sequence == 2
  }

  /** The cancellation event of a job is only set by a cancel request for its own run, read after
      the job was started; only then may the job end cancelled. */
  predicate OwnCancel(w: Worker, j: Job) {
    && (j.stage in {Reporting(Cancelled), Over(Cancelled)} ==> j.cancelled)
    && (j.cancelled ==> exists k :: j.since <= k < |w.received| && w.received[k] == CancelRun(j.run))
  }

  predicate JobSound(w: Worker, i: nat)
    requires i < |w.jobs|
  {
    && Shaped(w.jobs[i]) && OwnCancel(w, w.jobs[i])
    && EventsOf(w.output, i) == Expected(w.jobs[i])
    && w.jobs[i].since <= |w.received|
  }

  /** How often `run` was requested, started, refused, and is still in hand. */
  function Requested(received: seq<Message>, run: RunId): nat {
    if received == [] then 0
    else
      var last := |received| - 1;
      Requested(received[..last], run) + if received[last] == RunJob(run) then 1 else 0
  }

  function Started(jobs: seq<Job>, run: RunId): nat {
    if jobs == [] then 0
    else
      var last := |jobs| - 1;
      Started(jobs[..last], run) + if jobs[last].run == run then 1 else 0
  }

  function Refused(output: seq<Sent>, run: RunId): nat {
    if output == [] then 0
    else
      var last := |output| - 1;
      Refused(output[..last], run) + if output[last].event == Fault(run) then 1 else 0
  }

  function InHand(w: Worker, run: RunId): nat {
    if w.pending.Some? && w.pending.value.0 == RunJob(run) then 1 else 0
  }

  predicate Accounted(w: Worker, run: RunId) {
    Requested(w.received, run) == Started(w.jobs, run) + Refused(w.output, run) + InHand(w, run)
  }

  predicate TagsKnown(w: Worker) {
    forall k :: 0 <= k < |w.output| ==>
      match w.output[k].job
      case Some(job) => job < |w.jobs|
      case None => w.output[k].event.Fault? || w.output[k].event.Response?
  }

  predicate Sound(w: Worker) {
    && (forall i :: 0 <= i < |w.jobs| ==> JobSound(w, i))
    && (forall i :: 0 <= i < |w.jobs| - 1 ==> w.jobs[i].finished)
    && TagsKnown(w)
    && (w.pending.Some? ==> w.received != [] && w.received[|w.received| - 1] == w.pending.value.0)
    && (w.pending.Some? && !w.pending.value.1 ==> !Busy(w))
    && (w.pending.Some? ==> forall i :: 0 <= i < |w.jobs| ==> w.jobs[i].since < |w.received|)
  }

  lemma EventsOfOne(output: seq<Sent>, s: Sent, job: nat)
    ensures EventsOf(output + [s], job) == EventsOf(output, job) + if s.job == Some(job) then [s.event] else []
  {
    assert (output + [s])[..|output|] == output;
  }

  lemma RefusedOne(output: seq<Sent>, s: Sent, run: RunId)
    ensures Refused(output + [s], run) == Refused(output, run) + if s.event == Fault(run) then 1 else 0
  {
    assert (output + [s])[..|output|] == output;
  }

  lemma StartedOne(jobs: seq<Job>, j: Job, run: RunId)
    ensures Started(jobs + [j], run) == Started(jobs, run) + if j.run == run then 1 else 0
  {
    assert (jobs + [j])[..|jobs|] == jobs;
  }

  lemma {:induction false} NoneFromUnknown(output: seq<Sent>, job: nat)
    requires forall k :: 0 <= k < |output| ==> output[k].job != Some(job)
    ensures EventsOf(output, job) == []
    decreases |output|
  {
    if output != [] { NoneFromUnknown(output[..|output| - 1], job); }
  }

  lemma {:induction false} StartedUpdate(jobs: seq<Job>, i: nat, j: Job, run: RunId)
    requires i < |jobs| && j.run == jobs[i].run
    ensures Started(jobs[i := j], run) == Started(jobs, run)
    decreases |jobs|
  {
    var n := |jobs| - 1;
    if i < n {
      StartedUpdate(jobs[..n], i, j, run);
      assert jobs[i := j][..n] == jobs[..n][i := j];
    } else {
      assert jobs[i := j][..n] == jobs[..n];
    }
  }

  /** At most one event leaves a job per step, and it extends what the job has sent as its new
      stage expects. */
  lemma SteppedExtends(j: Job, raises: bool)
    requires Shaped(j) && !j.stage.Over?
    ensures var (k, events) := Stepped(j, raises);
      && Shaped(k) && k.run == j.run && k.since == j.since && k.cancelled == j.cancelled && (j.finished ==> k.finished)
      && |events| <= 1 && Expected(k) == Expected(j) + events
      && (forall e :: e in events ==> !e.Fault?)
  {
  }

  /** The events of a thread are added to its own job's, and to no other's. */
  lemma StepSends(w: Worker, i: nat, raises: bool, n: nat)
    requires Enabled(w, Step(i, raises)) && Shaped(w.jobs[i])
    ensures EventsOf(Next(w, Step(i, raises)).output, n)
         == EventsOf(w.output, n) + if n == i then Stepped(w.jobs[i], raises).1 else []
  {
    SteppedExtends(w.jobs[i], raises);
    hide Stepped;
    var events := Stepped(w.jobs[i], raises).1;
    if |events| == 1 {
      assert Frames(i, events) == [Sent(Some(i), events[0])];
      EventsOfOne(w.output, Sent(Some(i), events[0]), n);
    } else {
      assert w.output + Frames(i, events) == w.output;
    }
  }

  lemma SteppedOwnCancel(w: Worker, j: Job, raises: bool)
    requires OwnCancel(w, j) && !j.stage.Over?
    ensures OwnCancel(w, Stepped(j, raises).0)
  {
  }

  lemma StepKeepsJob(w: Worker, i: nat, raises: bool, n: nat)
    requires Sound(w) && Enabled(w, Step(i, raises)) && n < |w.jobs|
    ensures JobSound(Next(w, Step(i, raises)), n)
  {
    assert JobSound(w, i) && JobSound(w, n);
    SteppedExtends(w.jobs[i], raises);
    SteppedOwnCancel(w, w.jobs[i], raises);
    StepSends(w, i, raises, n);
    hide Stepped, Expected, Shaped, Sound, EventsOf, Frames;
  }

  lemma StepKeepsSound(w: Worker, i: nat, raises: bool)
    requires Sound(w) && Enabled(w, Step(i, raises))
    ensures Sound(Next(w, Step(i, raises)))
  {
    var t := Next(w, Step(i, raises));
    forall n | 0 <= n < |t.jobs| ensures JobSound(t, n) { StepKeepsJob(w, i, raises, n); }
    assert JobSound(w, i);
    SteppedExtends(w.jobs[i], raises);
    hide JobSound, Stepped;
  }

  /** Handling a message sends nothing for a job's thread. */
  lemma HandleSendsNone(w: Worker, n: nat)
    requires w.pending.Some?
    ensures EventsOf(Handled(w).output, n) == EventsOf(w.output, n)
  {
    match w.pending.value.0
    case RunJob(run) => EventsOfOne(w.output, Sent(None, Fault(run)), n);
    case ValidateRequest(id) => EventsOfOne(w.output, Sent(None, Response(id)), n);
    case _ =>
  }

  /** Handling a message changes a job only by setting its own cancellation event. */
  lemma HandleTouches(w: Worker, n: nat)
    requires w.pending.Some? && n < |w.jobs|
    ensures n < |Handled(w).jobs|
    ensures var j := Handled(w).jobs[n];
      j == w.jobs[n] || (j == w.jobs[n].(cancelled := true) && w.pending.value.0 == CancelRun(j.run))
  {
  }

  lemma JobStaysSound(w: Worker, t: Worker, n: nat)
    requires n < |w.jobs| && n < |t.jobs| && JobSound(w, n) && t.received == w.received
    requires EventsOf(t.output, n) == EventsOf(w.output, n)
    requires t.jobs[n] == w.jobs[n] || (t.jobs[n] == w.jobs[n].(cancelled := true)
      && w.jobs[n].since < |w.received| && w.received[|w.received| - 1] == CancelRun(w.jobs[n].run))
    ensures JobSound(t, n)
  {
    hide EventsOf;
  }

  lemma HandleKeepsJob(w: Worker, n: nat)
    requires Sound(w) && w.pending.Some? && n < |w.jobs|
    ensures n < |Handled(w).jobs| && JobSound(Handled(w), n)
  {
    HandleSendsNone(w, n);
    HandleTouches(w, n);
    assert Handled(w).received == w.received;
    assert JobSound(w, n);
    hide Handled, EventsOf, JobSound;
    JobStaysSound(w, Handled(w), n);
  }

  lemma HandleKeepsSound(w: Worker)
    requires Sound(w) && w.pending.Some?
    ensures Sound(Handled(w))
  {
    var t := Handled(w);
    forall n | 0 <= n < |w.jobs| ensures JobSound(t, n) { HandleKeepsJob(w, n); }
    if |t.jobs| > |w.jobs| {
      NoneFromUnknown(w.output, |w.jobs|);
      assert JobSound(t, |w.jobs|);
    }
    hide JobSound;
    assert forall n :: 0 <= n < |t.jobs| ==> JobSound(t, n);
  }

  lemma ReadKeepsSound(w: Worker, message: Message)
    requires Sound(w) && w.pending.None?
    ensures Sound(Next(w.(open := true), Read(message)).(open := w.open))
  {
    var t := Next(w.(open := true), Read(message)).(open := w.open);
    forall n | 0 <= n < |t.jobs| ensures JobSound(t, n) {
      assert JobSound(w, n);
      if w.jobs[n].cancelled {
        var k :| w.jobs[n].since <= k < |w.received| && w.received[k] == CancelRun(w.jobs[n].run);
        assert t.received[k] == CancelRun(w.jobs[n].run);
      }
    }
    forall n | 0 <= n < |w.jobs| ensures w.jobs[n].since < |t.received| { assert JobSound(w, n); }
  }

  lemma KeepsSound(w: Worker, act: Act)
    requires Sound(w) && Enabled(w, act)
    ensures Sound(Next(w, act))
  {
    match act
    case Read(message) => ReadKeepsSound(w, message);
    case Handle => HandleKeepsSound(w);
    case Step(i, raises) => StepKeepsSound(w, i, raises);
    case Close =>
      forall n | 0 <= n < |w.jobs| ensures JobSound(w.(open := false), n) { assert JobSound(w, n); }
  }

  lemma {:induction false} RunKeepsSound(w: Worker, acts: seq<Act>)
    requires Sound(w) && Runs(w, acts)
    ensures Sound(After(w, acts))
    decreases |acts|
  {
    if acts != [] {
      KeepsSound(w, acts[0]);
      RunKeepsSound(Next(w, acts[0]), acts[1..]);
    }
  }

  // ---- The discipline over every run ----------------------------------------------------------

  /** Acceptance, at most one progress event, exactly one terminal event, in that order, and
      increasing sequence numbers. */
  predicate Disciplined(run: RunId, events: seq<Event>) {
    && 2 <= |events| <= 3
    && events[0] == Accepted(run)
    && (forall i :: 0 < i < |events| - 1 ==> events[i].Progress? && events[i].run == run)
    && events[|events| - 1].Ended? && events[|events| - 1].run == run
    && (forall i, j :: 0 < i < j < |events| ==> SequenceOf(events[i]) < SequenceOf(events[j]))
  }

  function SequenceOf(e: Event): int {
    match e
    case Progress(_, n) => n
    case Ended(_, n, _) => n
    case _ => -1
  }

  /** The events are the beginning of a disciplined run. */
  ghost predicate Completable(run: RunId, events: seq<Event>) {
    exists rest :: Disciplined(run, events + rest)
  }

  /** Every job's frames, picked out of the interleaved output, are the beginning of a
      disciplined run, and a whole one once its thread is over. */
  lemma JobsAreDisciplined(acts: seq<Act>, i: nat)
    requires Runs(INITIAL, acts) && i < |After(INITIAL, acts).jobs|
    ensures var w := After(INITIAL, acts); Completable(w.jobs[i].run, EventsOf(w.output, i))
    ensures var w := After(INITIAL, acts);
      w.jobs[i].stage.Over? <==> Disciplined(w.jobs[i].run, EventsOf(w.output, i))
  {
    RunKeepsSound(INITIAL, acts);
    var w := After(INITIAL, acts);
    assert JobSound(w, i);
    ExpectedIsDisciplined(w.jobs[i]);
  }

  lemma ExpectedIsDisciplined(j: Job)
    requires Shaped(j)
    ensures Completable(j.run, Expected(j))
    ensures j.stage.Over? <==> Disciplined(j.run, Expected(j))
  {
    var rest :=
      if j.stage.Over? then []
      else (if j.stage.Starting? then [Accepted(j.run)] else []) + [Ended(j.run, j.sequence, Cancelled)];
    assert Disciplined(j.run, Expected(j) + rest);
    if j.stage.Over? { assert Expected(j) + rest == Expected(j); }
  }

  /** How many steps a thread still takes at most. */
  function Left(s: Stage): nat {
    match s
    case Starting => 6 case Admitted => 5 case Clear => 4 case Evaluating => 3
    case Publishing => 2 case Reporting(_) => 1 case Over(_) => 0
  }

  /** The steps of one job's thread in a run. */
  function StepsOf(acts: seq<Act>, i: nat): nat {
    if acts == [] then 0
    else (if acts[0].Step? && acts[0].job == i then 1 else 0) + StepsOf(acts[1..], i)
  }

  lemma StepSpends(w: Worker, act: Act, i: nat)
    requires Enabled(w, act) && i < |w.jobs|
    ensures i < |Next(w, act).jobs|
    ensures Left(Next(w, act).jobs[i].stage) + StepsOf([act], i) <= Left(w.jobs[i].stage)
  {
    assert [act][1..] == [];
  }

  /** No thread ever waits and none runs on: whatever the loop and the other threads do, its next
      step is enabled until it is over, and it takes at most six. */
  lemma {:induction false} ThreadsEnd(w: Worker, acts: seq<Act>, i: nat)
    requires Runs(w, acts) && i < |w.jobs|
    ensures i < |After(w, acts).jobs|
    ensures Left(After(w, acts).jobs[i].stage) + StepsOf(acts, i) <= Left(w.jobs[i].stage) <= 6
    ensures !After(w, acts).jobs[i].stage.Over? <==> forall raises :: Enabled(After(w, acts), Step(i, raises))
    decreases |acts|
  {
    if acts != [] {
      StepSpends(w, acts[0], i);
      assert [acts[0]][1..] == [];
      ThreadsEnd(Next(w, acts[0]), acts[1..], i);
    } else {
      assert Enabled(w, Step(i, true)) <==> !w.jobs[i].stage.Over?;
    }
  }

  /** At most one job has not finished at any time. */
  lemma OneAtATime(acts: seq<Act>, i: nat, j: nat)
    requires Runs(INITIAL, acts) && i < j < |After(INITIAL, acts).jobs|
    ensures After(INITIAL, acts).jobs[i].finished
  {
    RunKeepsSound(INITIAL, acts);
  }

  /** A job ends cancelled only if a cancel request for its own run was read after it started:
      no cancel for another run, or for an earlier job, ever reaches it. */
  lemma CancelledByOwnRequest(acts: seq<Act>, i: nat)
    requires Runs(INITIAL, acts) && i < |After(INITIAL, acts).jobs|
    requires After(INITIAL, acts).jobs[i].stage in {Reporting(Cancelled), Over(Cancelled)}
    ensures var w := After(INITIAL, acts);
      exists k :: w.jobs[i].since <= k < |w.received| && w.received[k] == CancelRun(w.jobs[i].run)
  {
    RunKeepsSound(INITIAL, acts);
    assert JobSound(After(INITIAL, acts), i);
  }

  // ---- What messages do -----------------------------------------------------------------------

  /** A cancel that was read while the worker was busy with its run sets that job's event; any other
      cancel does nothing. */
  lemma CancelSets(w: Worker, run: RunId, busy: bool)
    requires w.pending == Some((CancelRun(run), busy))
    ensures var t, last := Handled(w), |w.jobs| - 1;
      if busy && w.jobs != [] && w.jobs[last].run == run then
        && |t.jobs| == |w.jobs| && t.jobs[last].cancelled && t.jobs[last] == w.jobs[last].(cancelled := true)
        && t == w.(pending := None, jobs := t.jobs) && t.jobs[..last] == w.jobs[..last]
      else t == w.(pending := None)
  {
  }

  /** At the end of its input the worker stops reading, and goes on with what was started. */
  lemma CloseEnds(w: Worker)
    requires Enabled(w, Close)
    ensures var t := Next(w, Close); !t.open && t.jobs == w.jobs && t.output == w.output && t.pending.None?
  {
  }

  /** A worker that has stopped reading never reads again: no job is added and none is cancelled,
      whatever its threads still do, once the message in hand is dealt with. */
  lemma {:induction false} ClosedReadsNothing(w: Worker, acts: seq<Act>)
    requires !w.open && w.pending.None? && Runs(w, acts)
    ensures var t := After(w, acts);
      && !t.open && t.pending.None? && t.received == w.received && |t.jobs| == |w.jobs|
      && forall i :: 0 <= i < |w.jobs| ==> t.jobs[i].run == w.jobs[i].run && t.jobs[i].cancelled == w.jobs[i].cancelled
    decreases |acts|
  {
    if acts != [] { ClosedReadsNothing(Next(w, acts[0]), acts[1..]); }
  }

  /** A run request starts a job on a free worker, which has sent nothing and is not cancelled, and is
      answered with a fault by a busy one; a validation request is answered; a shutdown ends the
      reading. */
  lemma RequestDoes(w: Worker, message: Message, busy: bool)
    requires w.pending == Some((message, busy)) && !message.CancelRun?
    ensures var t := Handled(w);
      match message
      case RunJob(run) =>
        if busy then t == w.(pending := None, output := t.output) && t.output == w.output + [Sent(None, Fault(run))]
        else
          && t == w.(pending := None, jobs := t.jobs) && |t.jobs| == |w.jobs| + 1 && t.jobs[..|w.jobs|] == w.jobs
          && var j := t.jobs[|w.jobs|];
             j.run == run && j.stage == Starting && !j.cancelled && !j.finished && Expected(j) == []
      case ValidateRequest(id) =>
        t == w.(pending := None, output := t.output) && t.output == w.output + [Sent(None, Response(id))]
      case Shutdown => t == w.(pending := None, open := false) && forall m :: !Enabled(t, Read(m))
  {
  }

  /** The job can only end cancelled: its event was set before its first look, or it found it set. */
  predicate Doomed(j: Job) {
    || (j.cancelled && (j.stage.Starting? || j.stage.Admitted?))
    || j.stage == Reporting(Cancelled) || j.stage == Over(Cancelled)
  }

  /** The job can no longer complete: its event was set before its second look, or it has failed. */
  predicate Barred(j: Job) {
    || (j.cancelled && !j.stage.Publishing? && !j.stage.Reporting? && !j.stage.Over?)
    || (j.stage.Reporting? && j.stage.ending != Completed) || (j.stage.Over? && j.stage.ending != Completed)
  }

  lemma StepKeepsDoomed(w: Worker, act: Act, i: nat)
    requires Enabled(w, act) && i < |w.jobs|
    ensures i < |Next(w, act).jobs|
    ensures Doomed(w.jobs[i]) ==> Doomed(Next(w, act).jobs[i])
    ensures Barred(w.jobs[i]) ==> Barred(Next(w, act).jobs[i])
  {
  }

  /** A job whose event is set before its first look ends cancelled, if it ends; set before its second
      look, it never completes. This holds whatever else is read and whatever the calculation does. */
  lemma {:induction false} CancelledInTime(w: Worker, acts: seq<Act>, i: nat)
    requires Runs(w, acts) && i < |w.jobs|
    ensures i < |After(w, acts).jobs|
    ensures Doomed(w.jobs[i]) && After(w, acts).jobs[i].stage.Over? ==> After(w, acts).jobs[i].stage == Over(Cancelled)
    ensures Barred(w.jobs[i]) && After(w, acts).jobs[i].stage.Over? ==> After(w, acts).jobs[i].stage != Over(Completed)
    decreases |acts|
  {
    if acts != [] {
      StepKeepsDoomed(w, acts[0], i);
      CancelledInTime(Next(w, acts[0]), acts[1..], i);
    }
  }

  lemma HandleAccounts(w: Worker, run: RunId)
    requires Accounted(w, run) && w.pending.Some?
    ensures Accounted(Handled(w), run)
  {
    hide Refused, Started, Requested;
    match w.pending.value.0
    case RunJob(asked) =>
      if w.pending.value.1 {
        RefusedOne(w.output, Sent(None, Fault(asked)), run);
      } else {
        StartedOne(w.jobs, Job(asked, |w.received|, false, false, 1, Starting), run);
      }
    case ValidateRequest(id) => RefusedOne(w.output, Sent(None, Response(id)), run);
    case CancelRun(_) =>
      if w.jobs != [] {
        var last := |w.jobs| - 1;
        StartedUpdate(w.jobs, last, w.jobs[last].(cancelled := true), run);
      }
    case Shutdown =>
  }

  lemma StepAccounts(w: Worker, i: nat, raises: bool, run: RunId)
    requires Accounted(w, run) && Enabled(w, Step(i, raises))
    ensures Accounted(Next(w, Step(i, raises)), run)
  {
    hide Refused, Started, Requested;
    var (k, events) := Stepped(w.jobs[i], raises);
    if |events| == 1 {
      assert Frames(i, events) == [Sent(Some(i), events[0])];
      RefusedOne(w.output, Sent(Some(i), events[0]), run);
    } else {
      assert w.output + Frames(i, events) == w.output;
    }
    StartedUpdate(w.jobs, i, k, run);
  }

  /** Every run request read is either started as one job or refused by one fault, and the loop
      invents none. */
  lemma {:induction false} RequestsAccounted(w: Worker, acts: seq<Act>, run: RunId)
    requires Runs(w, acts) && Accounted(w, run)
    ensures Accounted(After(w, acts), run)
    decreases |acts|
  {
    if acts != [] {
      var t := Next(w, acts[0]);
      match acts[0] {
        case Read(message) => assert t.received[..|t.received| - 1] == w.received;
        case Handle => HandleAccounts(w, run);
        case Step(i, raises) => StepAccounts(w, i, raises, run);
        case Close =>
      }
      RequestsAccounted(t, acts[1..], run);
    }
  }

  // ---- The loop and the job's thread ----------------------------------------------------------

  class MessageLoop {
    var open: bool
    var jobs: seq<Job>
    var output: seq<Sent>
    var received: seq<Message>

    ghost function State(pending: Option<(Message, bool)>): Worker
      reads this
    {
      Worker(open, received, pending, jobs, output)
    }

    constructor ()
      ensures State(None) == INITIAL
    {
      open, jobs, output, received := true, [], [], [];
    }

    /** One round of the loop, with the answer its busy test gave. */
    method HandleMessage(message: Message, busy: bool)
      modifies this
      ensures State(None) == Handled(old(State(Some((message, busy)))))
    {
      match message {
        case CancelRun(run) =>
          if busy && jobs != [] && jobs[|jobs| - 1].run == run {
            var last := |jobs| - 1;
            jobs := jobs[last := jobs[last].(cancelled := true)];
          }
        case Shutdown => open := false;
        case ValidateRequest(id) => output := output + [Sent(None, Response(id))];
        case RunJob(run) =>
          if busy {
            output := output + [Sent(None, Fault(run))];
          } else {
            jobs := jobs + [Job(run, |received|, false, false, 1, Starting)];
          }
      }
    }
  }

  /** What a job's thread finds at its looks at the cancellation event, and where it raises. */
  datatype Findings = Findings(
    cancelledFirst: bool, cancelledSecond: bool, calculationRaises: bool, publicationRaises: bool)

  function CancelledAt(f: Findings, s: Stage): bool {
    (s.Admitted? && f.cancelledFirst) || (s.Evaluating? && f.cancelledSecond)
  }

  function RaisesAt(f: Findings, s: Stage): bool {
    (s.Evaluating? && f.calculationRaises) || (s.Publishing? && f.publicationRaises)
  }

  /** What a job's thread sends from its stage on, step by step. */
  function Played(j: Job, f: Findings): seq<Event>
    decreases Left(j.stage)
  {
    if j.stage.Over? then []
    else
      var (k, events) := Stepped(j.(cancelled := CancelledAt(f, j.stage)), RaisesAt(f, j.stage));
      events + Played(k, f)
  }

  /** The steps of a thread until its first look, and from there on. */
  lemma PlayedFromFirstLook(j: Job, f: Findings)
    requires j.stage.Admitted? && j.sequence == 1
    ensures Played(j, f) ==
      if f.cancelledFirst then [Ended(j.run, 1, Cancelled)]
      else [Progress(j.run, 1)] + PlayedFromSecondLook(j.run, f)
  {
    if f.cancelledFirst {
      PlayedReport(j.(cancelled := true, finished := true, stage := Reporting(Cancelled)), f);
    } else {
      var clear := j.(cancelled := false, stage := Clear);
      var evaluating := clear.(stage := Evaluating, sequence := 2);
      PlayedEvaluation(evaluating, f);
      assert Played(clear, f) == [Progress(j.run, 1)] + Played(evaluating, f);
    }
  }

  lemma PlayedReport(j: Job, f: Findings)
    requires j.stage.Reporting?
    ensures Played(j, f) == [Ended(j.run, j.sequence, j.stage.ending)]
  {
    assert Played(j.(cancelled := false, stage := Over(j.stage.ending)), f) == [];
  }

  lemma PlayedEvaluation(j: Job, f: Findings)
    requires j.stage.Evaluating? && j.sequence == 2
    ensures Played(j, f) == PlayedFromSecondLook(j.run, f)
  {
    var j1 := j.(cancelled := f.cancelledSecond);
    if f.calculationRaises {
      PlayedReport(j1.(finished := true, stage := Reporting(Failed)), f);
    } else if f.cancelledSecond {
      PlayedReport(j1.(finished := true, stage := Reporting(Cancelled)), f);
    } else {
      var publishing := j1.(stage := Publishing);
      var ending := if f.publicationRaises then Failed else Completed;
      PlayedReport(publishing.(finished := true, stage := Reporting(ending)), f);
      assert Played(publishing, f) == [Ended(j.run, 2, ending)];
    }
  }

  /** The end of the thread from its calculation on. */
  function PlayedFromSecondLook(run: RunId, f: Findings): seq<Event> {
    [Ended(run, 2,
       if f.calculationRaises then Failed
       else if f.cancelledSecond then Cancelled
       else if f.publicationRaises then Failed else Completed)]
  }

  /** The whole thread of one job as the program writes it: the steps of the job, in a row. */
  method Execute(run: RunId, since: nat, f: Findings) returns (sent: seq<Event>)
    ensures sent == Played(Job(run, since, false, false, 1, Starting), f)
    ensures Disciplined(run, sent)
    ensures sent[|sent| - 1].ending ==
      if f.cancelledFirst then Cancelled
      else if f.calculationRaises then Failed
      else if f.cancelledSecond then Cancelled
      else if f.publicationRaises then Failed else Completed
    ensures |sent| == 2 <==> f.cancelledFirst
  {
    PlayedFromFirstLook(Job(run, since, false, false, 1, Admitted), f);
    var sequence := 1;
    sent := [Accepted(run)];
    if f.cancelledFirst { return sent + [Ended(run, sequence, Cancelled)]; }
    sent := sent + [Progress(run, sequence)];
    sequence := sequence + 1;
    if f.calculationRaises { return sent + [Ended(run, sequence, Failed)]; }
    if f.cancelledSecond { return sent + [Ended(run, sequence, Cancelled)]; }
    if f.publicationRaises { return sent + [Ended(run, sequence, Failed)]; }
    return sent + [Ended(run, sequence, Completed)];
  }
}
