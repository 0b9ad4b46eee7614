/** The worker's frames as the supervisor reads them. */
module Delivery {
  import opened Wrappers
  import opened Worker
  import opened Reader

  function FramesFrom(output: seq<Sent>, session: nat): (frames: seq<Frame>)
    ensures |frames| == |output|
  {
    seq(|output|, k requires 0 <= k < |output| => FrameOf(session, output[k].event))
  }

  /** The reader knows no other session, and somebody waits for every frame. */
  predicate Trusting(views: seq<View>, frames: seq<Frame>, session: nat) {
    && |views| == |frames|
    && forall i :: 0 <= i < |frames| ==> views[i].session in {None, Some(session)} && Queued(views[i], frames[i])
  }

  predicate DistinctRuns(jobs: seq<Job>) {
    forall i, j :: 0 <= i < j < |jobs| ==> jobs[i].run != jobs[j].run
  }

  /** A job's frame stands, among the job's frames, after those the job sent before it. */
  lemma {:induction false} PlaceOf(output: seq<Sent>, k: nat, job: nat)
    requires k < |output| && output[k].job == Some(job)
    ensures var p := |EventsOf(output[..k], job)|;
      p < |EventsOf(output, job)| && EventsOf(output, job)[p] == output[k].event
    decreases |output|
  {
    var n := |output| - 1;
    if k < n {
      PlaceOf(output[..n], k, job);
      assert output[..n][..k] == output[..k];
    }
  }

  lemma {:induction false} SourceOf(output: seq<Sent>, job: nat, p: nat) returns (k: nat)
    requires p < |EventsOf(output, job)|
    ensures k < |output| && output[k] == Sent(Some(job), EventsOf(output, job)[p])
    decreases |output|
  {
    var n := |output| - 1;
    if p < |EventsOf(output[..n], job)| {
      k := SourceOf(output[..n], job, p);
    } else {
      k := n;
    }
  }

  /** Two sequenced frames of one job carry increasing sequence numbers. */
  lemma JobIncreases(w: Worker, k: nat, i: nat, job: nat)
    requires Sound(w) && k < i < |w.output| && job < |w.jobs|
    requires w.output[k].job == Some(job) && w.output[i].job == Some(job)
    requires Sequenced(w.output[k].event) && Sequenced(w.output[i].event)
    ensures SequenceOf(w.output[k].event) < SequenceOf(w.output[i].event)
  {
    assert JobSound(w, job);
    PlaceOf(w.output, k, job);
    PlaceOf(w.output, i, job);
    PlaceOf(w.output[..i], k, job);
    assert w.output[..i][..k] == w.output[..k];
  }

  /** A sequenced frame belongs to a job and names its run. */
  lemma SequencedHasJob(w: Worker, k: nat)
    requires Sound(w) && k < |w.output| && Sequenced(w.output[k].event)
    ensures w.output[k].job.Some? && w.output[k].job.value < |w.jobs|
    ensures w.output[k].event.run == w.jobs[w.output[k].job.value].run
  {
    assert TagsKnown(w);
    var job := w.output[k].job.value;
    assert JobSound(w, job);
    PlaceOf(w.output, k, job);
  }

  lemma DistinctPass(w: Worker, session: nat, views: seq<View>, i: nat)
    requires Sound(w) && DistinctRuns(w.jobs) && i < |w.output|
    requires Trusting(views, FramesFrom(w.output, session), session)
    ensures Passed(FramesFrom(w.output, session), views, map[], i)
  {
    var frames := FramesFrom(w.output, session);
    PassedIffNewest(frames, views, map[], i);
    if Sequenced(frames[i].event) {
      SequencedHasJob(w, i);
      forall k | 0 <= k < i && Rivals(frames[k], frames[i])
        ensures SequenceOf(frames[k].event) < SequenceOf(frames[i].event)
      {
        SequencedHasJob(w, k);
        JobIncreases(w, k, i, w.output[i].job.value);
      }
    }
  }

  /** With one run id per job, the supervisor hands on every frame of the worker, in order,
      however the frames of overlapping jobs interleave. */
  lemma NothingDropped(acts: seq<Act>, session: nat, views: seq<View>)
    requires Runs(INITIAL, acts) && DistinctRuns(After(INITIAL, acts).jobs)
    requires Trusting(views, FramesFrom(After(INITIAL, acts).output, session), session)
    ensures var frames := FramesFrom(After(INITIAL, acts).output, session);
      Delivered(frames, views, map[], |frames|) == frames
  {
    RunKeepsSound(INITIAL, acts);
    var w := After(INITIAL, acts);
    var frames := FramesFrom(w.output, session);
    forall i | 0 <= i < |frames| ensures Passed(frames, views, map[], i) && Queued(views[i], frames[i]) {
      DistinctPass(w, session, views, i);
    }
    AllDelivered(frames, views, map[], |frames|);
    assert frames[..|frames|] == frames;
  }

  /** A finished job has sent a frame with sequence number 1. */
  lemma SendsFirst(w: Worker, job: nat) returns (k: nat)
    requires Sound(w) && job < |w.jobs| && w.jobs[job].stage.Over?
    ensures k < |w.output| && w.output[k].job == Some(job)
    ensures Sequenced(w.output[k].event) && SequenceOf(w.output[k].event) == 1
    ensures w.output[k].event.run == w.jobs[job].run
  {
    assert JobSound(w, job);
    k := SourceOf(w.output, job, 1);
  }

  /** A run id used twice in a session costs the second job its frames: the remembered sequence
      number outlives the job. So nothing is dropped exactly when no run id is used twice. */
  lemma NothingDroppedIffDistinct(acts: seq<Act>, session: nat, views: seq<View>)
    requires Runs(INITIAL, acts)
    requires forall i :: 0 <= i < |After(INITIAL, acts).jobs| ==> After(INITIAL, acts).jobs[i].stage.Over?
    requires Trusting(views, FramesFrom(After(INITIAL, acts).output, session), session)
    ensures var w := After(INITIAL, acts);
      var frames := FramesFrom(w.output, session);
      Delivered(frames, views, map[], |frames|) == frames <==> DistinctRuns(w.jobs)
  {
    RunKeepsSound(INITIAL, acts);
    var w := After(INITIAL, acts);
    var frames := FramesFrom(w.output, session);
    if DistinctRuns(w.jobs) {
      NothingDropped(acts, session, views);
    } else {
      var i, j :| 0 <= i < j < |w.jobs| && w.jobs[i].run == w.jobs[j].run;
      var a := SendsFirst(w, i);
      var b := SendsFirst(w, j);
      RivalsDrop(frames, views, if a < b then a else b, if a < b then b else a);
    }
  }

  lemma RivalsDrop(frames: seq<Frame>, views: seq<View>, k: nat, i: nat)
    requires k < i < |frames| == |views| && Rivals(frames[k], frames[i])
    requires SequenceOf(frames[i].event) <= SequenceOf(frames[k].event)
    ensures Delivered(frames, views, map[], |frames|) != frames
  {
    AllDelivered(frames, views, map[], |frames|);
    if Passed(frames, views, map[], k) && Passed(frames, views, map[], i) {
      PassedIncrease(frames, views, map[], k, i);
    }
  }

  // ---- A run id used twice --------------------------------------------------------------------

  /** The states `ws` are those a run goes through. */
  predicate Path(acts: seq<Act>, ws: seq<Worker>) {
    && |ws| == |acts| + 1
    && forall i :: 0 <= i < |acts| ==> Enabled(ws[i], acts[i]) && Next(ws[i], acts[i]) == ws[i + 1]
  }

  lemma {:induction false} PathRuns(acts: seq<Act>, ws: seq<Worker>)
    requires Path(acts, ws)
    ensures Runs(ws[0], acts) && After(ws[0], acts) == ws[|acts|]
    decreases |acts|
  {
    if acts != [] {
      hide Next, Enabled;
      assert Enabled(ws[0], acts[0]);
      PathRuns(acts[1..], ws[1..]);
    }
  }

  /** Two requests for run 7, the second read once the first calculation has raised. */
  const ASK := RunJob(7)
  const REPEATED: seq<Act> := [
    Read(ASK), Handle, Step(0, false), Step(0, false), Step(0, false), Step(0, true),
    Read(ASK), Handle, Step(1, false), Step(1, false), Step(1, false)]

  function First(sequence: nat, stage: Stage): Job {
    Job(7, 1, false, stage.Reporting?, sequence, stage)
  }

  function Second(sequence: nat, stage: Stage): Job {
    Job(7, 2, false, false, sequence, stage)
  }

  /** The frames of both jobs up to their progress. */
  const TWICE := [Sent(Some(0), Accepted(7)), Sent(Some(0), Progress(7, 1)),
                  Sent(Some(1), Accepted(7)), Sent(Some(1), Progress(7, 1))]

  function Repeating(): seq<Worker> {
    var failed := First(2, Reporting(Failed));
    [INITIAL,
     Worker(true, [ASK], Some((ASK, false)), [], []),
     Worker(true, [ASK], None, [First(1, Starting)], []),
     Worker(true, [ASK], None, [First(1, Admitted)], TWICE[..1]),
     Worker(true, [ASK], None, [First(1, Clear)], TWICE[..1]),
     Worker(true, [ASK], None, [First(2, Evaluating)], TWICE[..2]),
     Worker(true, [ASK], None, [failed], TWICE[..2]),
     Worker(true, [ASK, ASK], Some((ASK, false)), [failed], TWICE[..2]),
     Worker(true, [ASK, ASK], None, [failed, Second(1, Starting)], TWICE[..2]),
     Worker(true, [ASK, ASK], None, [failed, Second(1, Admitted)], TWICE[..3]),
     Worker(true, [ASK, ASK], None, [failed, Second(1, Clear)], TWICE[..3]),
     Worker(true, [ASK, ASK], None, [failed, Second(2, Evaluating)], TWICE)]
  }

  lemma RepeatingSteps(i: nat)
    requires i < |REPEATED|
    ensures Enabled(Repeating()[i], REPEATED[i]) && Next(Repeating()[i], REPEATED[i]) == Repeating()[i + 1]
  {
  }

  /** The progress frame of a second job with the run id of the first is dropped, although the
      reader trusts the worker and somebody waits for it. */
  lemma RepeatedRunDrops()
    ensures Runs(INITIAL, REPEATED) && After(INITIAL, REPEATED).output == TWICE
    ensures var frames := FramesFrom(TWICE, 0);
      var views := seq(4, _ => View(Some(0), {7}, {}));
      Trusting(views, frames, 0) && Delivered(frames, views, map[], 4) != frames
  {
    forall i | 0 <= i < |REPEATED|
      ensures Enabled(Repeating()[i], REPEATED[i]) && Next(Repeating()[i], REPEATED[i]) == Repeating()[i + 1]
    {
      RepeatingSteps(i);
    }
    PathRuns(REPEATED, Repeating());
    RivalsDrop(FramesFrom(TWICE, 0), seq(4, _ => View(Some(0), {7}, {})), 1, 3);
  }
}
