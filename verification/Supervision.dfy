/** Job admission, cancellation and the kill timer of the worker supervisor, as atomic
    regions under the supervisor's lock racing with the service's cancellation. */
module Supervision {
  import opened Wrappers

  type RunId = nat

  datatype Frame = JobFrame(run: RunId) | CancelFrame(run: RunId)

  /** A frame, and the process whose input it was written to. */
  datatype Written = Written(process: nat, frame: Frame)

  /** What a kill timer captured when it was armed. */
  datatype Captured = Captured(process: nat, session: Option<nat>)

  /** A kill timer fires at most once: its thread has not begun, waits for the lock, or is over. */
  datatype Stage = Armed | Begun | Spent

  datatype Timer = Timer(captured: Captured, stage: Stage)

  /** A process killed for `run`, and the process that was given the run's job. */
  datatype Kill = Kill(run: RunId, process: nat, home: nat)

  /** `process` is the current process, if any, counted by spawns; `alive` whether it still
      runs; `active` maps the runs in the job table to the process their frame went to;
      `timers` is the table of kill timers and `started` the threads that wait for the lock, which a
      timer taken out of the table still does. The other
      fields record history: the frames written, the runs whose job or cancel frame could not
      be written, the runs whose cancellation event is set, whose cancel call has completed,
      whose execution was entered, has had its last event and has returned, and the kills. */
  datatype Supervisor = Supervisor(
    spawned: nat,
    process: Option<nat>,
    alive: bool,
    session: Option<nat>,
    active: map<RunId, nat>,
    timers: map<RunId, Timer>,
    started: set<(RunId, Captured)>,
    written: seq<Written>,
    unwritten: set<RunId>,
    muted: set<RunId>,
    requested: set<RunId>,
    cancelled: set<RunId>,
    entered: set<RunId>,
    left: set<RunId>,
    finished: set<RunId>,
    kills: seq<Kill>)

  const INITIAL := Supervisor(0, None, false, None, map[], map[], {}, [], {}, {}, {}, {}, {}, {}, {}, [])

  predicate Alive(s: Supervisor) {
    s.process.Some? && s.alive
  }

  datatype Act =
    | Execute(run: RunId, writeOk: bool)   // the admission region of execute_job
    | Request(run: RunId)                  // the service sets the run's cancellation event
    | Cancel(run: RunId, writeOk: bool)    // cancel, after the event is set
    | Leave(run: RunId)                    // the last event or a fault takes the run out of the table
    | Finish(run: RunId)                   // the final region of execute_job, after that or an exception
    | TimerStarts(run: RunId)              // the timer's thread begins, before taking the lock
    | TimerBody(run: RunId, captured: Captured)
    | Deadline(run: RunId)                 // the job deadline kills the current process
    | Die                                  // the worker exits by itself
    | Stop
    | Spawn
    | Handshake

  /** The admission test and the job frame are one region; a failed write leaves the run in
      the job table. */
  function Executed(s: Supervisor, run: RunId, writeOk: bool): Supervisor {
    var s1 := s.(entered := s.entered + {run});
    if !Alive(s) || run in s.requested then s1.(finished := s.finished + {run})
    else if writeOk then
      s1.(active := s.active[run := s.process.value],
          written := s.written + [Written(s.process.value, JobFrame(run))])
    else
      s1.(active := s.active[run := s.process.value], unwritten := s.unwritten + {run}, finished := s.finished + {run})
  }

  /** A cancel call writes the cancel frame, ignoring a failed write, and arms one timer. */
  function CancelCalled(s: Supervisor, run: RunId, writeOk: bool): Supervisor {
    var s1 := s.(cancelled := s.cancelled + {run});
    if !Alive(s) || run !in s.active then s1
    else
      var s2 := if writeOk then s1.(written := s.written + [Written(s.process.value, CancelFrame(run))])
        else s1.(muted := s.muted + {run});
      if run in s.timers then s2
      else s2.(timers := s.timers[run := Timer(Captured(s.process.value, s.session), Armed)])
  }

  function HasLeft(s: Supervisor, run: RunId): Supervisor {
    s.(active := s.active - {run}, left := s.left + {run})
  }

  function Finished(s: Supervisor, run: RunId): Supervisor {
    s.(active := s.active - {run}, timers := s.timers - {run}, finished := s.finished + {run})
  }

  predicate MayKill(s: Supervisor, run: RunId, c: Captured) {
    s.process == Some(c.process) && s.session == c.session && run in s.active && s.alive
  }

  function TimerBegun(s: Supervisor, run: RunId): Supervisor
    requires run in s.timers
  {
    var c := s.timers[run].captured;
    s.(timers := s.timers[run := Timer(c, Begun)], started := s.started + {(run, c)})
  }

  /** The table with the timer marked as over, if it is still there. */
  function Over(timers: map<RunId, Timer>, run: RunId, c: Captured): map<RunId, Timer> {
    if run in timers && timers[run] == Timer(c, Begun) then timers[run := Timer(c, Spent)] else timers
  }

  /** The body of a timer's thread, under the lock. */
  function TimerFired(s: Supervisor, run: RunId, c: Captured): Supervisor {
    var s1 := s.(started := s.started - {(run, c)}, timers := Over(s.timers, run, c));
    if MayKill(s, run, c) then
      s1.(alive := false, kills := s.kills + [Kill(run, c.process, s.active[run])])
    else s1
  }

  /** The deadline of a run kills whatever process is current. */
  function DeadlinePassed(s: Supervisor, run: RunId): Supervisor
    requires run in s.active
  {
    if s.process.None? then s
    else s.(alive := false, kills := s.kills + [Kill(run, s.process.value, s.active[run])])
  }

  /** Run ids are fresh, so each run is executed once; a cancel call follows the setting of the
      event unless the run's execution has already returned. */
  predicate Enabled(s: Supervisor, act: Act) {
    match act
    case Execute(run, _) => run !in s.entered
    case Request(_) => true
    case Cancel(run, _) => run in s.requested || run in s.finished
    case Leave(run) => run in s.active && run !in s.finished
    case Finish(run) => (run in s.active || run in s.left) && run !in s.finished
    case TimerStarts(run) => run in s.timers && s.timers[run].stage == Armed
    case TimerBody(run, c) => (run, c) in s.started
    case Deadline(run) => run in s.active && run !in s.finished
    case Die => Alive(s)
    case Stop => true
    case Spawn => !Alive(s)
    case Handshake => s.process.Some? && s.session.None?
  }

  function Next(s: Supervisor, act: Act): Supervisor
    requires Enabled(s, act)
  {
    match act
    case Execute(run, writeOk) => Executed(s, run, writeOk)
    case Request(run) => s.(requested := s.requested + {run})
    case Cancel(run, writeOk) => CancelCalled(s, run, writeOk)
    case Leave(run) => HasLeft(s, run)
    case Finish(run) => Finished(s, run)
    case TimerStarts(run) => TimerBegun(s, run)
    case TimerBody(run, c) => TimerFired(s, run, c)
    case Deadline(run) => DeadlinePassed(s, run)
    case Die => s.(alive := false)
    case Stop => s.(timers := map[], process := None, session := None, alive := false)
    case Spawn => s.(spawned := s.spawned + 1, process := Some(s.spawned), session := None, alive := true)
    case Handshake => s.(session := Some(s.spawned))
  }

  predicate Runs(s: Supervisor, acts: seq<Act>)
    decreases |acts|
  {
    acts == [] || (Enabled(s, acts[0]) && Runs(Next(s, acts[0]), acts[1..]))
  }

  function After(s: Supervisor, acts: seq<Act>): Supervisor
    requires Runs(s, acts)
    decreases |acts|
  {
    if acts == [] then s else After(Next(s, acts[0]), acts[1..])
  }

  lemma RunsAppend(s: Supervisor, acts: seq<Act>, act: Act)
    requires Runs(s, acts) && Enabled(After(s, acts), act)
    ensures Runs(s, acts + [act]) && After(s, acts + [act]) == Next(After(s, acts), act)
    decreases |acts|
  {
    hide Next, Enabled;
    if acts == [] {
      assert acts + [act] == [act] && [act][1..] == [];
    } else {
      assert (acts + [act])[0] == acts[0] && (acts + [act])[1..] == acts[1..] + [act];
      RunsAppend(Next(s, acts[0]), acts[1..], act);
    }
  }

  lemma RunsThree(s: Supervisor, a: Act, b: Act, c: Act)
    requires Enabled(s, a) && Enabled(Next(s, a), b) && Enabled(Next(Next(s, a), b), c)
    ensures Runs(s, [a, b, c]) && After(s, [a, b, c]) == Next(Next(Next(s, a), b), c)
  {
    hide Next, Enabled;
    assert [a, b, c][1..] == [b, c] && [b, c][1..] == [c] && [c][1..] == [];
    var t := Next(Next(s, a), b);
    assert Runs(Next(t, c), []) && After(Next(t, c), []) == Next(t, c);
    assert Runs(t, [c]) && After(t, [c]) == Next(t, c);
    assert After(Next(s, a), [b, c]) == Next(t, c);
  }

  // ---- What every step keeps ------------------------------------------------------------------

  predicate JobWritten(s: Supervisor, run: RunId) {
    exists i :: 0 <= i < |s.written| && s.written[i].frame == JobFrame(run)
  }

  /** The run's cancel frame follows its job frame to the same process. */
  predicate CancelFollows(s: Supervisor, run: RunId) {
    exists i, j :: 0 <= i < j < |s.written| && s.written[i].frame == JobFrame(run)
                   && s.written[j] == Written(s.written[i].process, CancelFrame(run))
  }

  /** The process that got the run's job frame is the live one. */
  predicate AtHome(s: Supervisor, run: RunId) {
    run in s.active && Alive(s) && s.process == Some(s.active[run])
  }

  predicate FrameKnown(s: Supervisor, w: Written) {
    w.frame.JobFrame? ==>
      && w.frame.run in s.entered
      && (w.frame.run in s.left + s.finished || (w.frame.run in s.active && s.active[w.frame.run] == w.process))
  }

  predicate RunKept(s: Supervisor, run: RunId) {
    && (run in s.active ==> run in s.entered && s.active[run] < s.spawned)
    && (run in s.finished ==> run in s.entered)
    && (run in s.left ==> run in s.entered && run !in s.active)
    && ((run in s.active && run in s.finished) <==> run in s.unwritten)
  }

  ghost predicate TableKept(s: Supervisor) {
    && (s.process.Some? ==> s.process.value + 1 == s.spawned)
    && (s.session.Some? ==> s.process.Some?)
    && (forall run :: RunKept(s, run))
  }

  ghost predicate FramesKnown(s: Supervisor) {
    && (forall i :: 0 <= i < |s.written| ==> FrameKnown(s, s.written[i]))
    && (forall run :: run in s.active && run !in s.finished ==> JobWritten(s, run))
  }

  /** A timer of the current process saw its session, or none yet. */
  predicate TimerTimely(s: Supervisor, c: Captured) {
    s.process == Some(c.process) ==> c.session.None? || c.session == s.session
  }

  /** The timer of a running job that is over on a live worker was armed before the session was
      known. */
  predicate FiredInVain(s: Supervisor, run: RunId, timer: Timer) {
    timer.stage == Spent && run in s.active && s.alive && s.process == Some(timer.captured.process) ==>
      timer.captured.session.None? && s.session.Some?
  }

  /** A timer entry of a run in the job table was armed on its process or a later one. */
  predicate EntryKept(s: Supervisor, run: RunId) {
    run in s.timers ==>
      && run in s.entered && s.timers[run].captured.process < s.spawned
      && (run in s.active ==> s.active[run] <= s.timers[run].captured.process)
      && (s.timers[run].stage == Begun ==> (run, s.timers[run].captured) in s.started)
      && TimerTimely(s, s.timers[run].captured) && FiredInVain(s, run, s.timers[run])
  }

  /** A waiting thread of the current process belongs to the entry of its run. */
  predicate ThreadKept(s: Supervisor, run: RunId, c: Captured) {
    (run, c) in s.started ==>
      && run in s.entered && c.process < s.spawned
      && (run in s.active && s.process == Some(c.process) ==>
            run in s.timers && s.timers[run] == Timer(c, Begun))
  }

  ghost predicate TimersKept(s: Supervisor) {
    && (forall run :: EntryKept(s, run))
    && (forall run, c :: ThreadKept(s, run, c))
  }

  /** An entry on the job's own process comes with the cancel frame, unless one could not be
      written. */
  predicate TimerAnnounced(s: Supervisor, run: RunId) {
    run in s.timers && run in s.active && run !in s.finished && s.timers[run].captured.process == s.active[run] ==>
      CancelFollows(s, run) || run in s.muted
  }

  ghost predicate TimersAnnounced(s: Supervisor) {
    forall run :: TimerAnnounced(s, run)
  }

  ghost predicate Coherent(s: Supervisor) {
    TableKept(s) && FramesKnown(s) && TimersKept(s) && TimersAnnounced(s)
  }

  /** Writing more frames keeps what was written. */
  lemma FramesStay(s: Supervisor, t: Supervisor, run: RunId)
    requires s.written <= t.written
    ensures JobWritten(s, run) ==> JobWritten(t, run)
    ensures CancelFollows(s, run) ==> CancelFollows(t, run)
  {
    assert forall i :: 0 <= i < |s.written| ==> t.written[i] == s.written[i];
  }

  lemma StepWrites(s: Supervisor, act: Act)
    requires Enabled(s, act)
    ensures s.written <= Next(s, act).written
  {
  }

  lemma StepKeepsTable(s: Supervisor, act: Act)
    requires TableKept(s) && Enabled(s, act)
    ensures TableKept(Next(s, act))
  {
    var t := Next(s, act);
    forall run ensures RunKept(t, run) { assert RunKept(s, run); }
  }

  lemma StepKeepsFrames(s: Supervisor, act: Act)
    requires TableKept(s) && FramesKnown(s) && Enabled(s, act)
    ensures FramesKnown(Next(s, act))
  {
    var t := Next(s, act);
    StepWrites(s, act);
    forall i | 0 <= i < |t.written| ensures FrameKnown(t, t.written[i]) {
      if i < |s.written| {
        assert t.written[i] == s.written[i] && FrameKnown(s, s.written[i]);
      }
    }
    forall run | run in t.active && run !in t.finished ensures JobWritten(t, run) {
      FramesStay(s, t, run);
      if act.Execute? && act.run == run {
        assert t.written[|s.written|].frame == JobFrame(run);
      } else {
        assert run in s.active && run !in s.finished;
      }
    }
  }

  lemma FiringKeepsEntry(s: Supervisor, run: RunId, c: Captured)
    requires RunKept(s, run) && EntryKept(s, run) && ThreadKept(s, run, c) && (run, c) in s.started
    requires s.process.Some? ==> s.process.value + 1 == s.spawned
    ensures EntryKept(TimerFired(s, run, c), run)
  {
  }

  lemma StepKeepsEntry(s: Supervisor, act: Act, run: RunId)
    requires TableKept(s) && TimersKept(s) && Enabled(s, act)
    ensures EntryKept(Next(s, act), run)
  {
    assert EntryKept(s, run) && RunKept(s, run);
    if act.TimerBody? && act.run == run {
      assert ThreadKept(s, run, act.captured);
      hide TimersKept, RunKept, EntryKept, ThreadKept;
      FiringKeepsEntry(s, run, act.captured);
    } else {
      hide TimersKept, ThreadKept;
    }
  }

  lemma StepKeepsThread(s: Supervisor, act: Act, run: RunId, c: Captured)
    requires TableKept(s) && TimersKept(s) && Enabled(s, act)
    ensures ThreadKept(Next(s, act), run, c)
  {
    assert EntryKept(s, run) && ThreadKept(s, run, c) && RunKept(s, run);
    hide TimersKept, TimerTimely;
  }

  lemma StepKeepsTimers(s: Supervisor, act: Act)
    requires TableKept(s) && TimersKept(s) && Enabled(s, act)
    ensures TimersKept(Next(s, act))
  {
    var t := Next(s, act);
    forall run ensures EntryKept(t, run) { StepKeepsEntry(s, act, run); }
    forall run, c ensures ThreadKept(t, run, c) { StepKeepsThread(s, act, run, c); }
    hide EntryKept, ThreadKept, Next;
  }

  lemma StepKeepsAnnounced(s: Supervisor, act: Act)
    requires Coherent(s) && Enabled(s, act)
    ensures TimersAnnounced(Next(s, act))
  {
    var t := Next(s, act);
    StepWrites(s, act);
    forall run ensures TimerAnnounced(t, run) {
      FramesStay(s, t, run);
      assert TimerAnnounced(s, run) && EntryKept(s, run);
      if act.Cancel? && act.run == run { CancelAnnounces(s, run, act.writeOk); }
    }
  }

  /** A cancel frame written to the live worker of a running job follows its job frame. */
  lemma WrittenFollows(s: Supervisor, run: RunId)
    requires Coherent(s) && AtHome(s, run) && run !in s.finished
    ensures CancelFollows(CancelCalled(s, run, true), run)
  {
    var t := CancelCalled(s, run, true);
    assert JobWritten(s, run);
    var i :| 0 <= i < |s.written| && s.written[i].frame == JobFrame(run);
    assert FrameKnown(s, s.written[i]) && RunKept(s, run);
    assert t.written[i] == s.written[i];
    assert t.written[|s.written|] == Written(t.written[i].process, CancelFrame(run));
  }

  lemma CancelAnnounces(s: Supervisor, run: RunId, writeOk: bool)
    requires Coherent(s)
    ensures TimerAnnounced(CancelCalled(s, run, writeOk), run)
  {
    var t := CancelCalled(s, run, writeOk);
    assert TimerAnnounced(s, run);
    FramesStay(s, t, run);
    if writeOk && AtHome(s, run) && run !in s.finished { WrittenFollows(s, run); }
  }

  lemma StepKeepsCoherent(s: Supervisor, act: Act)
    requires Coherent(s) && Enabled(s, act)
    ensures Coherent(Next(s, act))
  {
    StepKeepsTable(s, act);
    StepKeepsFrames(s, act);
    StepKeepsTimers(s, act);
    StepKeepsAnnounced(s, act);
    hide TableKept, FramesKnown, TimersKept, TimersAnnounced, Next;
  }

  lemma {:induction false} RunKeepsCoherent(s: Supervisor, acts: seq<Act>)
    requires Coherent(s) && Runs(s, acts)
    ensures Coherent(After(s, acts))
    decreases |acts|
  {
    if acts != [] {
      StepKeepsCoherent(s, acts[0]);
      RunKeepsCoherent(Next(s, acts[0]), acts[1..]);
    }
  }

  // ---- No lost cancellation -------------------------------------------------------------------

  /** The timer of the run can still kill the worker that got its job: it has not fired, and the
      session it captured still stands. */
  predicate Hunted(s: Supervisor, run: RunId) {
    && run in s.active && run in s.timers
    && s.timers[run].captured.process == s.active[run]
    && s.timers[run].captured.session == s.session
    && s.timers[run].stage != Spent
  }

  /** The cancel frame is behind the job frame, or could not be written. */
  predicate Told(s: Supervisor, run: RunId) {
    CancelFollows(s, run) || run in s.muted
  }

  /** The timer of the run was armed on its worker before the hello was read, which it has been
      since. */
  predicate Overtaken(s: Supervisor, run: RunId) {
    && run in s.active && run in s.timers
    && s.timers[run].captured == Captured(s.active[run], None) && s.session.Some?
  }

  /** The job was never sent, or is over, or its worker is gone. */
  predicate Settled(s: Supervisor, run: RunId) {
    !JobWritten(s, run) || run in s.finished || !AtHome(s, run)
  }

  /** What a completed cancel call leaves, whatever happens next. */
  predicate Noted(s: Supervisor, run: RunId) {
    Settled(s, run) || run in s.timers
  }

  ghost predicate Protected(s: Supervisor) {
    && Coherent(s)
    && (forall run :: run in s.cancelled ==> (run in s.requested || run in s.finished) && Noted(s, run))
  }

  lemma InitiallyProtected()
    ensures Protected(INITIAL)
  {
  }

  lemma EventKeepsUnwritten(s: Supervisor, act: Act, run: RunId)
    requires Enabled(s, act) && run in s.requested && !JobWritten(s, run)
    ensures !JobWritten(Next(s, act), run)
  {
    var t := Next(s, act);
    forall i | 0 <= i < |t.written| ensures t.written[i].frame != JobFrame(run) {
      assert i < |s.written| ==> t.written[i] == s.written[i];
    }
  }

  /** A process number is never used again, so a job whose worker is gone stays without one. */
  lemma GoneStaysGone(s: Supervisor, act: Act, run: RunId)
    requires TableKept(s) && Enabled(s, act) && run in s.entered && !AtHome(s, run)
    ensures !AtHome(Next(s, act), run)
  {
    assert RunKept(s, run);
  }

  lemma CancelNotes(s: Supervisor, run: RunId, writeOk: bool)
    ensures Noted(CancelCalled(s, run, writeOk), run)
  {
    hide JobWritten;
  }

  lemma StaysNoted(s: Supervisor, act: Act, run: RunId)
    requires Coherent(s) && Enabled(s, act) && Noted(s, run) && (run in s.requested || run in s.finished)
    ensures Noted(Next(s, act), run)
  {
    var t := Next(s, act);
    StepWrites(s, act);
    FramesStay(s, t, run);
    if run in s.requested && !JobWritten(s, run) {
      EventKeepsUnwritten(s, act, run);
    } else if run !in s.finished {
      WrittenIsEntered(s, run);
      if !AtHome(s, run) { GoneStaysGone(s, act, run); }
    }
    hide JobWritten, CancelFollows, Coherent;
  }

  lemma WrittenIsEntered(s: Supervisor, run: RunId)
    requires Coherent(s) && JobWritten(s, run)
    ensures run in s.entered
  {
    var i :| 0 <= i < |s.written| && s.written[i].frame == JobFrame(run);
    assert FrameKnown(s, s.written[i]);
  }

  lemma StepKeepsProtected(s: Supervisor, act: Act)
    requires Protected(s) && Enabled(s, act)
    ensures Protected(Next(s, act))
  {
    var t := Next(s, act);
    StepKeepsCoherent(s, act);
    forall run | run in t.cancelled ensures Noted(t, run) && (run in t.requested || run in t.finished) {
      hide Noted, Coherent;
      if act.Cancel? && act.run == run {
        CancelNotes(s, run, act.writeOk);
      } else {
        StaysNoted(s, act, run);
      }
    }
  }

  lemma {:induction false} RunKeepsProtected(s: Supervisor, acts: seq<Act>)
    requires Protected(s) && Runs(s, acts)
    ensures Protected(After(s, acts))
    decreases |acts|
  {
    if acts != [] {
      StepKeepsProtected(s, acts[0]);
      RunKeepsProtected(Next(s, acts[0]), acts[1..]);
    }
  }

  lemma NotedIsAnswered(s: Supervisor, run: RunId)
    requires Coherent(s) && Noted(s, run)
    ensures Settled(s, run) || (Told(s, run) && (Hunted(s, run) || Overtaken(s, run)))
  {
    assert EntryKept(s, run) && TimerAnnounced(s, run);
    hide JobWritten, CancelFollows;
  }

  /** No cancellation is lost, over every interleaving: once a cancel call for a run has completed
      and as long as its job runs on its worker, the cancel frame follows the job frame unless a
      write of it failed, and a timer is armed that can still kill that worker unless the worker's
      hello has overtaken it. */
  lemma NoLostCancellation(s: Supervisor, acts: seq<Act>, run: RunId)
    requires Protected(s) && Runs(s, acts) && run in After(s, acts).cancelled
    ensures var t := After(s, acts);
      Settled(t, run) || (Told(t, run) && (Hunted(t, run) || Overtaken(t, run)))
  {
    RunKeepsProtected(s, acts);
    NotedIsAnswered(After(s, acts), run);
  }

  /** A hunted worker is killed once its timer gets its turn. */
  lemma HuntedIsKilled(s: Supervisor, run: RunId)
    requires Coherent(s) && AtHome(s, run) && Hunted(s, run)
    ensures var c := s.timers[run].captured;
      var acts := if s.timers[run].stage == Armed then [TimerStarts(run), TimerBody(run, c)] else [TimerBody(run, c)];
      && Runs(s, acts)
      && !After(s, acts).alive && After(s, acts).kills == s.kills + [Kill(run, s.active[run], s.active[run])]
  {
    assert EntryKept(s, run);
    var c := s.timers[run].captured;
    var body := TimerBody(run, c);
    assert [body][1..] == [] && [TimerStarts(run), body][1..] == [body];
    if s.timers[run].stage == Armed {
      var t := Next(s, TimerStarts(run));
      assert Runs(Next(t, body), []) && After(Next(t, body), []) == Next(t, body);
      assert Runs(t, [body]) && After(t, [body]) == Next(t, body);
      assert After(s, [TimerStarts(run), body]) == Next(t, body);
    } else {
      assert Runs(Next(s, body), []) && After(Next(s, body), []) == Next(s, body);
    }
  }

  /** A timer that gets its turn while its run's worker lives kills it exactly when the run was
      hunted; otherwise it kills nothing. */
  lemma FiresIffHunted(s: Supervisor, run: RunId, c: Captured)
    requires Coherent(s) && AtHome(s, run) && (run, c) in s.started
    ensures !Next(s, TimerBody(run, c)).alive <==> Hunted(s, run) && s.timers[run].captured == c
    ensures Next(s, TimerBody(run, c)).alive ==> Next(s, TimerBody(run, c)).kills == s.kills
  {
    assert ThreadKept(s, run, c) && EntryKept(s, run);
  }

  /** The job is over or its worker gone. */
  predicate Ended(s: Supervisor, run: RunId) {
    run in s.finished || !AtHome(s, run)
  }

  /** In every continuation the worker is told for as long as the job runs on it. */
  ghost predicate StaysTold(s: Supervisor, run: RunId) {
    forall acts :: Runs(s, acts) ==> Ended(After(s, acts), run) || CancelFollows(After(s, acts), run)
  }

  /** In every continuation it is hunted for as long as the job runs on it. */
  ghost predicate StaysHunted(s: Supervisor, run: RunId) {
    forall acts :: Runs(s, acts) ==> Ended(After(s, acts), run) || Hunted(After(s, acts), run)
  }

  /** In no continuation is it neither. */
  ghost predicate NeverLost(s: Supervisor, run: RunId) {
    forall acts :: Runs(s, acts) ==>
      Ended(After(s, acts), run) || CancelFollows(After(s, acts), run) || Hunted(After(s, acts), run)
  }

  lemma StepKeepsEnded(s: Supervisor, act: Act, run: RunId)
    requires Coherent(s) && Enabled(s, act) && run in s.entered && Ended(s, run)
    ensures Ended(Next(s, act), run)
  {
    if !AtHome(s, run) { GoneStaysGone(s, act, run); }
    hide Coherent;
  }

  lemma {:induction false} ToldForGood(s: Supervisor, acts: seq<Act>, run: RunId)
    requires Coherent(s) && Runs(s, acts) && run in s.entered && (Ended(s, run) || CancelFollows(s, run))
    ensures Ended(After(s, acts), run) || CancelFollows(After(s, acts), run)
    decreases |acts|
  {
    if acts != [] {
      hide Ended, CancelFollows;
      StepKeepsCoherent(s, acts[0]);
      StepWrites(s, acts[0]);
      FramesStay(s, Next(s, acts[0]), run);
      if Ended(s, run) { StepKeepsEnded(s, acts[0], run); }
      assert run in Next(s, acts[0]).entered;
      ToldForGood(Next(s, acts[0]), acts[1..], run);
    }
  }

  /** The run's timer knows the session. */
  predicate Secured(s: Supervisor, run: RunId) {
    run in s.timers && s.timers[run].captured.session.Some?
  }

  lemma StepKeepsSecured(s: Supervisor, act: Act, run: RunId)
    requires Coherent(s) && Enabled(s, act) && Secured(s, run)
    ensures Secured(Next(s, act), run) || Ended(Next(s, act), run)
  {
    hide Coherent;
  }

  lemma {:induction false} SecuredForGood(s: Supervisor, acts: seq<Act>, run: RunId)
    requires Coherent(s) && Runs(s, acts) && run in s.entered && (Ended(s, run) || Secured(s, run))
    ensures Ended(After(s, acts), run) || Hunted(After(s, acts), run)
    decreases |acts|
  {
    if acts == [] {
      assert EntryKept(s, run);
    } else {
      hide Ended, Secured;
      StepKeepsCoherent(s, acts[0]);
      if Ended(s, run) { StepKeepsEnded(s, acts[0], run); } else { StepKeepsSecured(s, acts[0], run); }
      assert run in Next(s, acts[0]).entered;
      SecuredForGood(Next(s, acts[0]), acts[1..], run);
    }
  }

  /** The session known to the run's timer once a cancel call has completed. */
  function TimerSession(s: Supervisor, run: RunId): Option<nat> {
    if run in s.timers then s.timers[run].captured.session else s.session
  }

  lemma Stand(s: Supervisor)
    ensures Runs(s, []) && After(s, []) == s
  {
  }

  /** The frame half of a cancel call holds exactly when the frame went out, now or earlier. */
  lemma CancelTellsIff(s: Supervisor, run: RunId, writeOk: bool)
    requires Coherent(s) && AtHome(s, run) && run !in s.finished && Enabled(s, Cancel(run, writeOk))
    ensures StaysTold(Next(s, Cancel(run, writeOk)), run) <==> writeOk || CancelFollows(s, run)
  {
    var t := Next(s, Cancel(run, writeOk));
    StepKeepsCoherent(s, Cancel(run, writeOk));
    assert RunKept(s, run) && !Ended(t, run);
    Stand(t);
    FramesStay(s, t, run);
    if writeOk { WrittenFollows(s, run); }
    if CancelFollows(t, run) {
      forall acts | Runs(t, acts) ensures Ended(After(t, acts), run) || CancelFollows(After(t, acts), run) {
        ToldForGood(t, acts, run);
      }
    }
    assert !writeOk ==> t.written == s.written;
  }

  /** What makes the timer half fail: the hello is read after the timer was armed. */
  lemma HelloOvertakes(s: Supervisor, run: RunId) returns (acts: seq<Act>)
    requires Coherent(s) && AtHome(s, run) && run !in s.finished
    requires run in s.timers && s.timers[run].captured.session.None?
    ensures Runs(s, acts)
    ensures var u := After(s, acts); !Ended(u, run) && !Hunted(u, run) && u.written == s.written
  {
    if s.session.Some? {
      Stand(s);
      acts := [];
    } else {
      acts := [Handshake];
      assert acts[1..] == [];
      Stand(Next(s, Handshake));
      assert After(s, acts) == Next(s, Handshake);
    }
  }

  /** The timer half, the bound on a worker that ignores the frame, holds exactly when the session
      was known as the timer was armed. */
  lemma CancelHuntsIff(s: Supervisor, run: RunId, writeOk: bool)
    requires Coherent(s) && AtHome(s, run) && run !in s.finished && Enabled(s, Cancel(run, writeOk))
    ensures StaysHunted(Next(s, Cancel(run, writeOk)), run) <==> TimerSession(s, run).Some?
  {
    var t := Next(s, Cancel(run, writeOk));
    StepKeepsCoherent(s, Cancel(run, writeOk));
    assert RunKept(s, run);
    if TimerSession(s, run).Some? {
      forall acts | Runs(t, acts) ensures Ended(After(t, acts), run) || Hunted(After(t, acts), run) {
        SecuredForGood(t, acts, run);
      }
    } else {
      var acts := HelloOvertakes(t, run);
    }
  }

  /** A cancellation can be lost altogether exactly when both halves fail. */
  lemma CancelNeverLostIff(s: Supervisor, run: RunId, writeOk: bool)
    requires Coherent(s) && AtHome(s, run) && run !in s.finished && Enabled(s, Cancel(run, writeOk))
    ensures NeverLost(Next(s, Cancel(run, writeOk)), run)
       <==> writeOk || CancelFollows(s, run) || TimerSession(s, run).Some?
  {
    var t := Next(s, Cancel(run, writeOk));
    StepKeepsCoherent(s, Cancel(run, writeOk));
    CancelTellsIff(s, run, writeOk);
    CancelHuntsIff(s, run, writeOk);
    if !writeOk && !CancelFollows(s, run) && TimerSession(s, run).None? {
      assert t.written == s.written;
      hide Coherent;
      var acts := HelloOvertakes(t, run);
      assert !CancelFollows(After(t, acts), run);
    }
  }

  /** A job that was sent and cancelled before the hello of its worker is read. */
  function EarlyCancel(writeOk: bool): seq<Act> {
    [Spawn, Execute(7, true), Request(7), Cancel(7, writeOk)]
  }

  function Early(writeOk: bool): Supervisor {
    INITIAL.(spawned := 1, process := Some(0), alive := true, active := map[7 := 0],
             timers := map[7 := Timer(Captured(0, None), Armed)],
             written := [Written(0, JobFrame(7))] + if writeOk then [Written(0, CancelFrame(7))] else [],
             muted := if writeOk then {} else {7}, requested := {7}, cancelled := {7}, entered := {7})
  }

  lemma EarlyIsReached(writeOk: bool)
    ensures Runs(INITIAL, EarlyCancel(writeOk)) && After(INITIAL, EarlyCancel(writeOk)) == Early(writeOk)
  {
    RunsThree(INITIAL, Spawn, Execute(7, true), Request(7));
    var s := Next(Next(Next(INITIAL, Spawn), Execute(7, true)), Request(7));
    assert Enabled(s, Cancel(7, writeOk)) && Next(s, Cancel(7, writeOk)) == Early(writeOk);
    hide Next, Enabled, Runs, After;
    var three := [Spawn, Execute(7, true), Request(7)];
    RunsAppend(INITIAL, three, Cancel(7, writeOk));
    assert EarlyCancel(writeOk) == three + [Cancel(7, writeOk)];
  }

  /** Then the hello is read, and the timer fires. */
  const VAIN := [Handshake, TimerStarts(7), TimerBody(7, Captured(0, None))]

  function Vain(writeOk: bool): Supervisor {
    Early(writeOk).(session := Some(1), timers := map[7 := Timer(Captured(0, None), Spent)])
  }

  lemma VainIsReached(writeOk: bool)
    ensures Runs(Early(writeOk), VAIN) && After(Early(writeOk), VAIN) == Vain(writeOk)
  {
    var c := Captured(0, None);
    var t := Next(Early(writeOk), Handshake);
    var u := Next(t, TimerStarts(7));
    assert u == Early(writeOk).(session := Some(1), timers := map[7 := Timer(c, Begun)], started := {(7, c)});
    assert Enabled(u, TimerBody(7, c)) && Next(u, TimerBody(7, c)) == Vain(writeOk);
    hide Early, Vain, Runs, After;
    RunsThree(Early(writeOk), Handshake, TimerStarts(7), TimerBody(7, c));
  }

  /** It fires in vain even if every write succeeds: the worker goes on with the job, told or not. */
  lemma TimerCanFireInVain(writeOk: bool)
    ensures Runs(INITIAL, EarlyCancel(writeOk)) && After(INITIAL, EarlyCancel(writeOk)) == Early(writeOk)
    ensures Runs(Early(writeOk), VAIN)
    ensures var t := After(Early(writeOk), VAIN);
      && 7 in t.cancelled && !Settled(t, 7) && !Hunted(t, 7) && (CancelFollows(t, 7) <==> writeOk)
      && t.kills == [] && t.started == {}
  {
    hide Next, Enabled, Runs, After;
    EarlyIsReached(writeOk);
    VainIsReached(writeOk);
    var t := Vain(writeOk);
    assert t.written[0] == Written(0, JobFrame(7));
    assert writeOk ==> t.written[1] == Written(0, CancelFrame(7));
  }

  /** Once the event is set before the job frame is written, the frame is never written. */
  lemma {:induction false} NeverWritten(s: Supervisor, acts: seq<Act>, run: RunId)
    requires Runs(s, acts) && run in s.requested && !JobWritten(s, run)
    ensures !JobWritten(After(s, acts), run)
    decreases |acts|
  {
    if acts != [] {
      EventKeepsUnwritten(s, acts[0], run);
      NeverWritten(Next(s, acts[0]), acts[1..], run);
    }
  }

  // ---- What a kill hits -----------------------------------------------------------------------

  /** A run that has left the job table. */
  predicate Gone(s: Supervisor, run: RunId) {
    run in s.entered && run !in s.active
  }

  /** The kills made for a run. */
  function KillsFor(kills: seq<Kill>, run: RunId): seq<Kill> {
    if kills == [] then []
    else
      var last := kills[|kills| - 1];
      KillsFor(kills[..|kills| - 1], run) + if last.run == run then [last] else []
  }

  /** No timer or deadline of a run that has left the job table kills anything any more, not even
      a timer whose thread was already waiting for the lock. */
  lemma {:induction false} GoneNeverKills(s: Supervisor, acts: seq<Act>, run: RunId)
    requires Runs(s, acts) && Gone(s, run)
    ensures Gone(After(s, acts), run) && KillsFor(After(s, acts).kills, run) == KillsFor(s.kills, run)
    decreases |acts|
  {
    if acts != [] {
      var t := Next(s, acts[0]);
      if |t.kills| > |s.kills| { assert t.kills[..|t.kills| - 1] == s.kills; }
      GoneNeverKills(t, acts[1..], run);
    }
  }

  /** Returning takes the run out of the job table, except when its job frame could not be
      written. */
  lemma {:induction false} LeakedIffUnwritten(s: Supervisor, acts: seq<Act>, run: RunId)
    requires Coherent(s) && Runs(s, acts) && run in After(s, acts).finished
    ensures Gone(After(s, acts), run) <==> run !in After(s, acts).unwritten
    decreases |acts|
  {
    if acts != [] {
      StepKeepsCoherent(s, acts[0]);
      LeakedIffUnwritten(Next(s, acts[0]), acts[1..], run);
    } else {
      assert RunKept(s, run);
    }
  }

  /** A kill that hits the process which was given the run's job. */
  predicate OwnKill(k: Kill) {
    k.process == k.home
  }

  predicate AllOwn(s: Supervisor) {
    forall i :: 0 <= i < |s.kills| ==> OwnKill(s.kills[i])
  }

  /** Every run of the table has returned and still has its old kill timer in the table. */
  predicate OnlySpent(s: Supervisor) {
    forall run :: run in s.active ==> run in s.finished && run in s.timers
  }

  /** A run of the table was sent to the current process, or has returned with a timer of an
      earlier one. */
  predicate RunSafe(s: Supervisor, run: RunId) {
    s.process.Some? && run in s.active ==>
      || s.active[run] == s.process.value
      || (run in s.finished && run in s.timers && s.timers[run].captured.process < s.process.value)
  }

  ghost predicate TableSafe(s: Supervisor) {
    forall run :: RunSafe(s, run)
  }

  /** A new worker is only started when that holds of every run of the table. */
  predicate SafeSpawns(s: Supervisor, acts: seq<Act>)
    requires Runs(s, acts)
    decreases |acts|
  {
    acts != [] ==>
      && (acts[0].Spawn? ==> OnlySpent(s))
      && SafeSpawns(Next(s, acts[0]), acts[1..])
  }

  lemma StepKeepsTableSafe(s: Supervisor, act: Act)
    requires Coherent(s) && TableSafe(s) && Enabled(s, act) && (act.Spawn? ==> OnlySpent(s))
    ensures TableSafe(Next(s, act))
  {
    var t := Next(s, act);
    forall run ensures RunSafe(t, run) {
      assert EntryKept(s, run) && RunSafe(s, run);
      hide FramesKnown, TimersAnnounced, TimersKept, TimerTimely;
    }
  }

  lemma SpentIsSafe(s: Supervisor)
    requires Coherent(s) && OnlySpent(s) && Enabled(s, Spawn)
    ensures TableSafe(Next(s, Spawn))
  {
    var t := Next(s, Spawn);
    forall run ensures RunSafe(t, run) { assert EntryKept(s, run); }
  }

  lemma StepKillsOwn(s: Supervisor, act: Act)
    requires Coherent(s) && AllOwn(s) && TableSafe(s) && Enabled(s, act)
    ensures AllOwn(Next(s, act))
  {
    var t := Next(s, act);
    forall i | 0 <= i < |t.kills| ensures OwnKill(t.kills[i]) {
      if i < |s.kills| {
        assert t.kills[i] == s.kills[i];
      } else if act.Deadline? {
        assert RunSafe(s, act.run);
      } else if act.TimerBody? {
        assert ThreadKept(s, act.run, act.captured) && RunSafe(s, act.run);
      }
    }
  }

  /** Then every timer and deadline kills only the worker that was given its own run's job. */
  lemma {:induction false} KillsAreOwn(s: Supervisor, acts: seq<Act>)
    requires Coherent(s) && AllOwn(s) && TableSafe(s) && Runs(s, acts) && SafeSpawns(s, acts)
    ensures AllOwn(After(s, acts)) && TableSafe(After(s, acts))
    decreases |acts|
  {
    if acts != [] {
      StepKeepsCoherent(s, acts[0]);
      StepKeepsTableSafe(s, acts[0]);
      StepKillsOwn(s, acts[0]);
      KillsAreOwn(Next(s, acts[0]), acts[1..]);
    }
  }

  /** Until the next spawn, no continuation kills a worker for a run that was not sent to it. */
  ghost predicate KillsStayOwn(s: Supervisor) {
    forall acts :: Runs(s, acts) && Spawn !in acts ==> AllOwn(After(s, acts))
  }

  lemma {:induction false} NoSpawnIsSafe(s: Supervisor, acts: seq<Act>)
    requires Runs(s, acts) && Spawn !in acts
    ensures SafeSpawns(s, acts)
    decreases |acts|
  {
    if acts != [] {
      assert acts[0] in acts && forall a :: a in acts[1..] ==> a in acts;
      NoSpawnIsSafe(Next(s, acts[0]), acts[1..]);
    }
  }

  /** What kills the replacement of a worker for a run left in the table: its deadline if it has
      not returned, a new cancel call and its timer if it has. */
  function Exposure(s: Supervisor, run: RunId): seq<Act> {
    if run !in s.finished then [Deadline(run)]
    else [Cancel(run, true), TimerStarts(run), TimerBody(run, Captured(s.spawned, None))]
  }

  lemma ExposureKills(s: Supervisor, run: RunId)
    requires Coherent(s) && Enabled(s, Spawn) && run in s.active && !(run in s.finished && run in s.timers)
    ensures var t := Next(s, Spawn);
      && Runs(t, Exposure(s, run)) && Spawn !in Exposure(s, run)
      && After(t, Exposure(s, run)).kills == s.kills + [Kill(run, s.spawned, s.active[run])]
  {
    var t := Next(s, Spawn);
    if run !in s.finished {
      assert [Deadline(run)][1..] == [];
      assert Runs(Next(t, Deadline(run)), []);
    } else {
      var c := Captured(s.spawned, None);
      var u := Next(t, Cancel(run, true));
      assert u.timers[run] == Timer(c, Armed);
      var v := Next(u, TimerStarts(run));
      assert Next(v, TimerBody(run, c)).kills == s.kills + [Kill(run, s.spawned, s.active[run])];
      hide Next, Enabled, Runs, After;
      RunsThree(t, Cancel(run, true), TimerStarts(run), TimerBody(run, c));
    }
  }

  /** A restart spares the replacement exactly when every run still in the table has returned and
      kept its old timer. */
  lemma RestartSafeIff(s: Supervisor)
    requires Coherent(s) && AllOwn(s) && Enabled(s, Spawn)
    ensures KillsStayOwn(Next(s, Spawn)) <==> OnlySpent(s)
  {
    var t := Next(s, Spawn);
    if OnlySpent(s) {
      StepKeepsCoherent(s, Spawn);
      SpentIsSafe(s);
      forall acts | Runs(t, acts) && Spawn !in acts ensures AllOwn(After(t, acts)) {
        NoSpawnIsSafe(t, acts);
        KillsAreOwn(t, acts);
      }
    } else {
      var run :| run in s.active && !(run in s.finished && run in s.timers);
      ExposureKills(s, run);
      var u := After(t, Exposure(s, run));
      assert RunKept(s, run);
      assert !OwnKill(u.kills[|s.kills|]);
    }
  }

  /** The condition fails on reachable states: a worker that dies during a job. */
  lemma RestartCanExpose()
    ensures var acts := [Spawn, Execute(7, true), Die];
      && Runs(INITIAL, acts)
      && var s := After(INITIAL, acts);
         Coherent(s) && AllOwn(s) && Enabled(s, Spawn) && !KillsStayOwn(Next(s, Spawn))
  {
    var acts := [Spawn, Execute(7, true), Die];
    var s1 := Next(INITIAL, Spawn);
    var s2 := Next(s1, Execute(7, true));
    var s := Next(s2, Die);
    RunsThree(INITIAL, Spawn, Execute(7, true), Die);
    InitiallyProtected();
    RunKeepsCoherent(INITIAL, acts);
    assert After(INITIAL, acts) == s;
    RestartSafeIff(s);
  }

  // ---- Stopping and returning -----------------------------------------------------------------

  /** After a stop there is no process, session or timer. */
  predicate Stopped(s: Supervisor) {
    s.process == None && s.session == None && s.timers == map[]
  }

  lemma StopDoes(s: Supervisor)
    ensures Stopped(Next(s, Stop))
    ensures Next(s, Stop).active == s.active && Next(s, Stop).kills == s.kills
  {
  }

  /** Until the next start nothing is killed, by no deadline and no timer, not even one that was
      waiting for the lock, and no frame is written. */
  lemma {:induction false} StoppedIsSilent(s: Supervisor, acts: seq<Act>)
    requires Stopped(s) && Runs(s, acts) && Spawn !in acts
    ensures Stopped(After(s, acts)) && After(s, acts).kills == s.kills && After(s, acts).written == s.written
    decreases |acts|
  {
    if acts != [] {
      assert acts[0] in acts && forall a :: a in acts[1..] ==> a in acts;
      StoppedIsSilent(Next(s, acts[0]), acts[1..]);
    }
  }

  /** A job is only given to a live worker, and not once its cancellation was asked for: it is then
      in the job table under that worker, and its frame is the last one written. If the frame cannot
      be written it returns at once, and stays in the table. A job that is not given returns at once
      too, and never was there. */
  lemma ExecuteDoes(s: Supervisor, run: RunId, writeOk: bool)
    requires Coherent(s) && Enabled(s, Execute(run, writeOk))
    ensures var t := Next(s, Execute(run, writeOk));
      var given := Alive(s) && run !in s.requested;
      && run in t.entered && t.timers == s.timers && t.kills == s.kills && t.process == s.process
      && (run in t.active <==> given) && (given ==> t.active[run] == s.process.value)
      && (run in t.finished <==> !given || !writeOk)
      && (run in t.unwritten <==> run in s.unwritten || (given && !writeOk))
      && t.written == s.written + (if given && writeOk then [Written(s.process.value, JobFrame(run))] else [])
      && (forall other :: other != run && other in s.active ==> other in t.active && t.active[other] == s.active[other])
  {
    assert RunKept(s, run);
  }

  /** A job that returns is in neither table any more, and no other run is touched. */
  lemma FinishDoes(s: Supervisor, run: RunId, other: RunId)
    requires Enabled(s, Finish(run)) && other != run
    ensures var t := Next(s, Finish(run));
      && run in t.finished && run !in t.active && run !in t.timers
      && (other in t.active <==> other in s.active) && (other in t.timers <==> other in s.timers)
      && (other in s.active ==> t.active[other] == s.active[other])
      && (other in s.timers ==> t.timers[other] == s.timers[other])
      && (other in t.finished <==> other in s.finished)
      && t.process == s.process && t.session == s.session && t.alive == s.alive && t.kills == s.kills
  {
  }

  /** The last event takes the job out of the job table; its timer stays until the job returns. */
  lemma LeaveDoes(s: Supervisor, run: RunId)
    requires Enabled(s, Leave(run))
    ensures var t := Next(s, Leave(run));
      && run !in t.active && t.timers == s.timers && t.finished == s.finished
      && (forall other :: other != run && other in s.active ==> other in t.active && t.active[other] == s.active[other])
      && Enabled(t, Finish(run)) && !Enabled(t, Deadline(run))
  {
  }

  /** A deadline kills the current process, if there is one, and reports whose job it was for. */
  lemma DeadlineDoes(s: Supervisor, run: RunId)
    requires Enabled(s, Deadline(run))
    ensures var t := Next(s, Deadline(run));
      if s.process.Some? then
        !Alive(t) && t.kills == s.kills + [Kill(run, s.process.value, s.active[run])]
      else t == s
  {
  }

  /** A spawn brings a live process of a new number, without a session, and leaves the job table. */
  lemma SpawnDoes(s: Supervisor)
    requires Coherent(s) && Enabled(s, Spawn)
    ensures var t := Next(s, Spawn);
      && Alive(t) && t.session == None && t.active == s.active && t.timers == s.timers
      && (s.process.Some? ==> t.process.value != s.process.value)
      && (forall run :: run in t.active ==> t.active[run] != t.process.value)
      && (forall run :: run in t.timers ==> t.timers[run].captured.process != t.process.value)
  {
    forall run ensures run in s.active ==> s.active[run] != s.spawned { assert RunKept(s, run); }
    forall run ensures run in s.timers ==> s.timers[run].captured.process != s.spawned { assert EntryKept(s, run); }
  }

  // ---- The supervisor -------------------------------------------------------------------------

  class WorkerSupervisor {
    /** Processes are told apart by counting the spawns. */
    var spawned: nat
    var process: Option<nat>
    var alive: bool
    var sessionId: Option<nat>
    var activeJobs: map<RunId, nat>
    var cancelTimers: map<RunId, Timer>
    /** The rest of the modelled state: history and other threads. */
    ghost var world: Supervisor

    ghost function State(): Supervisor
      reads this
    {
      world.(spawned := spawned, process := process, alive := alive, session := sessionId,
             active := activeJobs, timers := cancelTimers)
    }

    constructor ()
      ensures State() == INITIAL
    {
      spawned, process, alive, sessionId, activeJobs, cancelTimers := 0, None, false, None, map[], map[];
      world := INITIAL;
    }

    method IsAlive() returns (r: bool)
      ensures r <==> Alive(State())
    {
      r := process.Some? && alive;
    }

    /** The admission region of `execute_job`; `written` says the job frame went out. */
    method Admit(run: RunId, cancellationRequested: bool, writeOk: bool) returns (written: bool)
      requires cancellationRequested <==> run in State().requested
      modifies this
      ensures State() == Executed(old(State()), run, writeOk)
      ensures written <==> Alive(old(State())) && run !in old(State()).requested && writeOk
    {
      world := world.(entered := world.entered + {run});
      var live := IsAlive();
      if !live || cancellationRequested {
        world := world.(finished := world.finished + {run});
        return false;
      }
      activeJobs := activeJobs[run := process.value];
      if !writeOk {
        world := world.(unwritten := world.unwritten + {run}, finished := world.finished + {run});
        return false;
      }
      world := world.(written := world.written + [Written(process.value, JobFrame(run))]);
      return true;
    }

    /** The region in which the last event of a job, or a fault, takes it out of the table. */
    method TakeOut(run: RunId)
      modifies this
      ensures State() == HasLeft(old(State()), run)
    {
      activeJobs := activeJobs - {run};
      world := world.(left := world.left + {run});
    }

    /** The final region of `execute_job`. */
    method Release(run: RunId)
      modifies this
      ensures State() == Finished(old(State()), run)
    {
      activeJobs := activeJobs - {run};
      if run in cancelTimers { cancelTimers := cancelTimers - {run}; }
      world := world.(finished := world.finished + {run});
    }

    method CancelJob(run: RunId, writeOk: bool)
      modifies this
      ensures State() == CancelCalled(old(State()), run, writeOk)
    {
      world := world.(cancelled := world.cancelled + {run});
      var live := IsAlive();
      if !live || run !in activeJobs { return; }
      if writeOk {
        world := world.(written := world.written + [Written(process.value, CancelFrame(run))]);
      } else {
        world := world.(muted := world.muted + {run});
      }
      if run !in cancelTimers {
        cancelTimers := cancelTimers[run := Timer(Captured(process.value, sessionId), Armed)];
      }
    }

    /** The kill timer's interval is over and its thread begins. */
    method TimerExpires(run: RunId)
      requires run in State().timers
      modifies this
      ensures State() == TimerBegun(old(State()), run)
    {
      var captured := cancelTimers[run].captured;
      cancelTimers := cancelTimers[run := Timer(captured, Begun)];
      world := world.(started := world.started + {(run, captured)});
    }

    /** The timer's thread kills the worker it was armed on, if the run is still in the table and
        neither the process nor the session has changed. */
    method ForceKillIfStillRunning(run: RunId, captured: Captured)
      modifies this
      ensures State() == TimerFired(old(State()), run, captured)
    {
      world := world.(started := world.started - {(run, captured)});
      cancelTimers := Over(cancelTimers, run, captured);
      if process == Some(captured.process) && sessionId == captured.session && run in activeJobs && alive {
        alive := false;
        world := world.(kills := world.kills + [Kill(run, captured.process, activeJobs[run])]);
      }
    }

    method KillAtDeadline(run: RunId)
      requires run in State().active
      modifies this
      ensures State() == DeadlinePassed(old(State()), run)
    {
      if process.Some? {
        alive := false;
        world := world.(kills := world.kills + [Kill(run, process.value, activeJobs[run])]);
      }
    }

    /** `start` leaves a live worker alone; otherwise it spawns one. */
    method Start()
      modifies this
      ensures var s := old(State()); State() == if Enabled(s, Spawn) then Next(s, Spawn) else s
    {
      var live := IsAlive();
      if live { return; }
      process, alive, sessionId, spawned := Some(spawned), true, None, spawned + 1;
    }

    method StopWorker()
      modifies this
      ensures State() == Next(old(State()), Stop)
    {
      cancelTimers := map[];
      process, sessionId, alive := None, None, false;
    }
  }
}
