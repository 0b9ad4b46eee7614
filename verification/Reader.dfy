/** The supervisor's reader: which of the frames it reads it hands on. */
module Reader {
  import opened Wrappers
  import opened Worker

  const PROTOCOL: nat := 1

  /** A frame as read: the session and protocol it names, if it names any, and its event. */
  datatype Frame = Frame(session: Option<nat>, protocol: Option<nat>, event: Event)

  /** What the reader finds when it reads a frame: the session, the runs in the job table and the
      validation requests in progress. */
  datatype View = View(session: Option<nat>, active: set<RunId>, waiting: set<nat>)

  /** The frame a worker of `session` writes for an event; only a validation response names no
      session. */
  function FrameOf(session: nat, e: Event): Frame {
    Frame(if e.Response? then None else Some(session), Some(PROTOCOL), e)
  }

  predicate Sequenced(e: Event) {
    e.Progress? || e.Ended?
  }

  predicate Fenced(v: View, f: Frame) {
    && (f.session.Some? && v.session.Some? ==> f.session == v.session)
    && (f.protocol.Some? ==> f.protocol.value == PROTOCOL)
  }

  function Remembered(last: map<RunId, int>, run: RunId): int {
    if run in last then last[run] else -1
  }

  predicate Passes(last: map<RunId, int>, v: View, f: Frame) {
    Fenced(v, f) && (Sequenced(f.event) ==> SequenceOf(f.event) > Remembered(last, f.event.run))
  }

  function Noted(last: map<RunId, int>, v: View, f: Frame): map<RunId, int> {
    if Passes(last, v, f) && Sequenced(f.event) then last[f.event.run := SequenceOf(f.event)] else last
  }

  /** There is somebody to hand the frame to. */
  predicate Queued(v: View, f: Frame) {
    match f.event
    case Response(id) => id in v.waiting
    case _ => f.event.run in v.active
  }

  /** The remembered sequence numbers after `n` frames. */
  function LastAfter(frames: seq<Frame>, views: seq<View>, last: map<RunId, int>, n: nat): map<RunId, int>
    requires n <= |frames| == |views|
  {
    if n == 0 then last else Noted(LastAfter(frames, views, last, n - 1), views[n - 1], frames[n - 1])
  }

  predicate Passed(frames: seq<Frame>, views: seq<View>, last: map<RunId, int>, i: nat)
    requires i < |frames| == |views|
  {
    Passes(LastAfter(frames, views, last, i), views[i], frames[i])
  }

  function Delivered(frames: seq<Frame>, views: seq<View>, last: map<RunId, int>, n: nat): seq<Frame>
    requires n <= |frames| == |views|
  {
    if n == 0 then []
    else
      Delivered(frames, views, last, n - 1)
      + if Passed(frames, views, last, n - 1) && Queued(views[n - 1], frames[n - 1]) then [frames[n - 1]] else []
  }

  class SupervisorReader {
    var lastSequence: map<RunId, int>

    constructor ()
      ensures lastSequence == map[]
    {
      lastSequence := map[];
    }

    /** The reader loop over the frames of a stream. */
    method ReadAll(frames: seq<Frame>, views: seq<View>) returns (queued: seq<Frame>)
      requires |frames| == |views|
      modifies this
      ensures queued == Delivered(frames, views, old(lastSequence), |frames|)
      ensures lastSequence == LastAfter(frames, views, old(lastSequence), |frames|)
    {
      queued := [];
      for i := 0 to |frames|
        invariant queued == Delivered(frames, views, old(lastSequence), i)
        invariant lastSequence == LastAfter(frames, views, old(lastSequence), i)
      {
        var frame, view := frames[i], views[i];
        if frame.session.Some? && view.session.Some? && frame.session != view.session { continue; }
        if frame.protocol.Some? && frame.protocol.value != PROTOCOL { continue; }
        if Sequenced(frame.event) {
          var run, sequence := frame.event.run, SequenceOf(frame.event);
          if sequence <= Remembered(lastSequence, run) { continue; }
          lastSequence := lastSequence[run := sequence];
        }
        if Queued(view, frame) { queued := queued + [frame]; }
      }
    }
  }

  /** A passed frame is handed on exactly when somebody waits for it: the requester of a validation,
      the run of a job in the table. Nothing else is. */
  lemma HandedOnIff(frames: seq<Frame>, views: seq<View>, last: map<RunId, int>, i: nat)
    requires i < |frames| == |views|
    ensures var wanted :=
        if frames[i].event.Response? then frames[i].event.id in views[i].waiting
        else frames[i].event.run in views[i].active;
      Delivered(frames, views, last, i + 1)
        == Delivered(frames, views, last, i) + if Passed(frames, views, last, i) && wanted then [frames[i]] else []
  {
  }

  /** A frame of a session other than the known one, or of another protocol, is not handed on and not
      remembered. */
  lemma UntrustedIsIgnored(frames: seq<Frame>, views: seq<View>, last: map<RunId, int>, i: nat)
    requires i < |frames| == |views|
    requires (frames[i].protocol.Some? && frames[i].protocol != Some(1))
      || (frames[i].session.Some? && views[i].session.Some? && frames[i].session != views[i].session)
    ensures Delivered(frames, views, last, i + 1) == Delivered(frames, views, last, i)
    ensures LastAfter(frames, views, last, i + 1) == LastAfter(frames, views, last, i)
  {
  }

  // ---- Which frames pass ----------------------------------------------------------------------

  /** The two frames carry sequence numbers of the same run. */
  predicate Rivals(f: Frame, g: Frame) {
    Sequenced(f.event) && Sequenced(g.event) && f.event.run == g.event.run
  }

  /** No earlier trusted frame of the run, nor what was remembered at the start, reaches the
      frame's sequence number. */
  predicate Newest(frames: seq<Frame>, views: seq<View>, last: map<RunId, int>, i: nat)
    requires i < |frames| == |views|
  {
    Sequenced(frames[i].event) ==>
      && SequenceOf(frames[i].event) > Remembered(last, frames[i].event.run)
      && forall k :: 0 <= k < i && Rivals(frames[k], frames[i]) && Fenced(views[k], frames[k]) ==>
           SequenceOf(frames[k].event) < SequenceOf(frames[i].event)
  }

  /** What is remembered of a run is below `n` exactly when all its trusted frames were. */
  lemma {:induction false} RememberedBelow(frames: seq<Frame>, views: seq<View>, last: map<RunId, int>, i: nat,
      run: RunId, n: int)
    requires i <= |frames| == |views|
    ensures Remembered(LastAfter(frames, views, last, i), run) < n <==>
      (Remembered(last, run) < n
       && forall k | 0 <= k < i && Sequenced(frames[k].event) && frames[k].event.run == run ::
            Fenced(views[k], frames[k]) ==> SequenceOf(frames[k].event) < n)
  {
    if i > 0 {
      RememberedBelow(frames, views, last, i - 1, run, n);
      RememberedGrows(frames, views, last, i - 1, run);
    }
  }

  lemma RememberedGrows(frames: seq<Frame>, views: seq<View>, last: map<RunId, int>, i: nat, run: RunId)
    requires i < |frames| == |views|
    ensures var before, f := Remembered(LastAfter(frames, views, last, i), run), frames[i];
      Remembered(LastAfter(frames, views, last, i + 1), run) ==
        if Sequenced(f.event) && f.event.run == run && Fenced(views[i], f) && SequenceOf(f.event) > before
        then SequenceOf(f.event) else before
  {
  }

  /** A frame passes exactly when it is trusted and newest of its run. */
  lemma PassedIffNewest(frames: seq<Frame>, views: seq<View>, last: map<RunId, int>, i: nat)
    requires i < |frames| == |views|
    ensures Passed(frames, views, last, i) <==>
      Fenced(views[i], frames[i]) && Newest(frames, views, last, i)
  {
    if Sequenced(frames[i].event) {
      RememberedBelow(frames, views, last, i, frames[i].event.run, SequenceOf(frames[i].event));
    }
  }

  /** Of one run, what passes has strictly increasing sequence numbers, however the frames of
      several sessions are mixed; and nothing of a session other than a known one passes. */
  lemma PassedIncrease(frames: seq<Frame>, views: seq<View>, last: map<RunId, int>, k: nat, i: nat)
    requires k < i < |frames| == |views|
    requires Passed(frames, views, last, k) && Passed(frames, views, last, i) && Rivals(frames[k], frames[i])
    ensures SequenceOf(frames[k].event) < SequenceOf(frames[i].event)
    ensures frames[i].session.Some? && views[i].session.Some? ==> frames[i].session == views[i].session
  {
    PassedIffNewest(frames, views, last, k);
    PassedIffNewest(frames, views, last, i);
  }

  /** While the session is not known yet, between a restart and its handshake, the session fence
      is open: a frame of the old worker is handed on. */
  lemma StalePassesBeforeHandshake(f: Frame, v: View)
    requires Fenced(v.(session := f.session), f)
    ensures v.session == None ==>
      Delivered([f], [v], map[], 1) == if Queued(v, f) && Newest([f], [v], map[], 0) then [f] else []
    ensures f.session.Some? && v.session.Some? && v.session != f.session ==> Delivered([f], [v], map[], 1) == []
  {
    PassedIffNewest([f], [v], map[], 0);
    assert Delivered([f], [v], map[], 0) == [];
  }

  /** Everything is handed on exactly when every frame passes and is queued. */
  lemma {:induction false} AllDelivered(frames: seq<Frame>, views: seq<View>, last: map<RunId, int>, n: nat)
    requires n <= |frames| == |views|
    ensures |Delivered(frames, views, last, n)| <= n
    ensures |Delivered(frames, views, last, n)| == n <==>
      forall i :: 0 <= i < n ==> Passed(frames, views, last, i) && Queued(views[i], frames[i])
    ensures |Delivered(frames, views, last, n)| == n ==> Delivered(frames, views, last, n) == frames[..n]
  {
    if n > 0 {
      AllDelivered(frames, views, last, n - 1);
      assert frames[..n] == frames[..n - 1] + [frames[n - 1]];
    }
  }
}
