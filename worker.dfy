/**
 * The frame loop of a video worker (`VideoWorker.run` and `stop`), run here on one
 * thread: the worker opens a capture on its source, and while it is running and the
 * capture is open it reads a frame, runs the model on it, builds the frame's
 * statistics and publishes the annotated frame with them; the first failed read
 * ends the loop, and the capture is released once afterwards.
 *
 * What the loop publishes is specified by `ReadPrefix` (the frames before the first
 * failed read) and `Process` (the pairs built from them, up to a frame whose
 * statistics raise).
 */
module Streaming {
  import opened Wrappers
  import opened Vision
  import opened Stats
  import opened Capture

  /** What one `frame_ready` signal carries: the annotated frame and its statistics. */
  type Emission = (Frame, FrameStats)

  /** What a run of the loop over some frames produces: the published pairs and the error that ended it, if any. */
  datatype RunLog = RunLog(emitted: seq<Emission>, raised: Option<StatsError>)

  /** The frames successfully read before the first failed read (or the end of the feed). */
  function ReadPrefix(feed: seq<Option<Frame>>): seq<Frame> {
    if |feed| == 0 || feed[0].None? then [] else [feed[0].value] + ReadPrefix(feed[1..])
  }

  /** One frame's turn of the loop: inference, the annotated rendering, and the statistics. */
  function Emit(m: Model, thr: real, f: Frame): Result<Emission, StatsError> {
    var d := m.infer(f, thr);
    match StatsOf(d.boxes, m.names)
    case Success(s) => Success((d.plotted, s))
    case Failure(e) => Failure(e)
  }

  /** The loop over `frames`, one turn after another, stopping at the first turn that raises. */
  function Process(m: Model, thr: real, frames: seq<Frame>): RunLog
    decreases |frames|
  {
    if |frames| == 0 then RunLog([], None)
    else
      var log := Process(m, thr, frames[..|frames| - 1]);
      if log.raised.Some? then log
      else
        match Emit(m, thr, frames[|frames| - 1])
        case Success(e) => RunLog(log.emitted + [e], None)
        case Failure(err) => RunLog(log.emitted, Some(err))
  }

  /**
   * `ReadPrefix` is the longest run of successful reads at the head of the feed: each of
   * its frames is the corresponding read, and the read after it, if any, failed.
   */
  lemma {:induction false} ReadPrefixMeaning(feed: seq<Option<Frame>>)
    ensures |ReadPrefix(feed)| <= |feed|
    ensures forall i :: 0 <= i < |ReadPrefix(feed)| ==> feed[i] == Some(ReadPrefix(feed)[i])
    ensures |ReadPrefix(feed)| < |feed| ==> feed[|ReadPrefix(feed)|].None?
  {
    if |feed| > 0 && feed[0].Some? {
      ReadPrefixMeaning(feed[1..]);
    }
  }

  /** Successful reads at the head of the feed are the head of `ReadPrefix`. */
  lemma {:induction false} ReadPrefixExtends(feed: seq<Option<Frame>>, p: seq<Frame>)
    requires |p| <= |feed|
    requires forall i :: 0 <= i < |p| ==> feed[i] == Some(p[i])
    ensures |p| <= |ReadPrefix(feed)| && ReadPrefix(feed) == p + ReadPrefix(feed)[|p|..]
  {
    if |p| > 0 {
      assert feed[0] == Some(p[0]);
      assert forall i :: 0 <= i < |p[1..]| ==> feed[1..][i] == Some(p[1..][i]);
      ReadPrefixExtends(feed[1..], p[1..]);
    }
  }

  /** Successful reads followed by a failed read (or the end of the feed) are exactly `ReadPrefix`. */
  lemma {:induction false} ReadPrefixUnique(feed: seq<Option<Frame>>, p: seq<Frame>)
    requires |p| <= |feed|
    requires forall i :: 0 <= i < |p| ==> feed[i] == Some(p[i])
    requires |p| < |feed| ==> feed[|p|].None?
    ensures ReadPrefix(feed) == p
  {
    if |p| > 0 {
      assert feed[0] == Some(p[0]);
      assert forall i :: 0 <= i < |p| - 1 ==> feed[1..][i] == feed[i + 1];
      ReadPrefixUnique(feed[1..], p[1..]);
    }
  }

  /**
   * The loop publishes exactly one pair per frame, in read order, each built from that
   * frame; it stops at (and publishes nothing for) the first frame whose statistics raise,
   * and otherwise covers every frame.
   */
  lemma {:induction false} ProcessMeaning(m: Model, thr: real, frames: seq<Frame>)
    ensures var log := Process(m, thr, frames);
      && |log.emitted| <= |frames|
      && (forall i :: 0 <= i < |log.emitted| ==> Emit(m, thr, frames[i]) == Success(log.emitted[i]))
      && (log.raised.None? ==> |log.emitted| == |frames|)
      && (log.raised.Some? ==>
            |log.emitted| < |frames| && Emit(m, thr, frames[|log.emitted|]) == Failure(log.raised.value))
    decreases |frames|
  {
    if |frames| > 0 {
      var p := frames[..|frames| - 1];
      ProcessMeaning(m, thr, p);
      assert forall i :: 0 <= i < |p| ==> p[i] == frames[i];
    }
  }

  /** Once a turn has raised, later frames change nothing: the loop has already ended. */
  lemma {:induction false} ProcessRaisedFinal(m: Model, thr: real, fs: seq<Frame>, gs: seq<Frame>)
    requires Process(m, thr, fs).raised.Some?
    ensures Process(m, thr, fs + gs) == Process(m, thr, fs)
    decreases |gs|
  {
    if |gs| > 0 {
      var gs' := gs[..|gs| - 1];
      ProcessRaisedFinal(m, thr, fs, gs');
      var t := fs + gs;
      assert t[..|t| - 1] == fs + gs';
      assert Process(m, thr, t[..|t| - 1]).raised.Some?;
    } else {
      assert fs + gs == fs;
    }
  }

  /** A turn that publishes appends its pair to what the loop has published so far. */
  lemma {:induction false} ProcessSnoc(m: Model, thr: real, frames: seq<Frame>, f: Frame)
    requires Process(m, thr, frames).raised.None? && Emit(m, thr, f).Success?
    ensures Process(m, thr, frames + [f]) == RunLog(Process(m, thr, frames).emitted + [Emit(m, thr, f).value], None)
  {
    var t := frames + [f];
    assert t[..|t| - 1] == frames;
  }

  /**
   * When the frame read after `frames` raises, the loop over all the frames before the
   * first failed read ends there, with the one pair per frame that `frames` published and
   * that error.
   */
  lemma {:induction false} ProcessStopsAt(m: Model, thr: real, feed: seq<Option<Frame>>, frames: seq<Frame>, f: Frame)
    requires |frames| < |feed| && feed[|frames|] == Some(f)
    requires forall i :: 0 <= i < |frames| ==> feed[i] == Some(frames[i])
    requires Process(m, thr, frames).raised.None? && Emit(m, thr, f).Failure?
    ensures Process(m, thr, ReadPrefix(feed)) == RunLog(Process(m, thr, frames).emitted, Some(Emit(m, thr, f).error))
    ensures |Process(m, thr, frames).emitted| == |frames|
  {
    var next := frames + [f];
    assert next[..|next| - 1] == frames;
    assert Process(m, thr, next) == RunLog(Process(m, thr, frames).emitted, Some(Emit(m, thr, f).error));
    ReadPrefixExtends(feed, next);
    ProcessRaisedFinal(m, thr, next, ReadPrefix(feed)[|next|..]);
    ProcessMeaning(m, thr, frames);
  }

  class VideoWorker {
    const model: Model
    const videoSource: Source
    const confThreshold: real
    /** Cleared by a failed read or by `stop()`; the loop runs only while it is set. */
    var running: bool
    /** The capture opened by `run()`, absent before. */
    var cap: VideoCapture?
    /** The `frame_ready` signals sent so far, oldest first. */
    var published: seq<Emission>

    /** `VideoWorker(model, video_source, conf_threshold)`: running, with no capture yet. */
    constructor (model: Model, videoSource: Source, confThreshold: real)
      ensures this.model == model && this.videoSource == videoSource && this.confThreshold == confThreshold
      ensures running && cap == null && published == []
    {
      this.model := model;
      this.videoSource := videoSource;
      this.confThreshold := confThreshold;
      running := true;
      cap := null;
      published := [];
    }

    /**
     * `run()`. `opens` and `feed` stand for what the device or file behind `videoSource`
     * delivers. The loop publishes `Process` of the frames before the first failed read
     * (none if the capture did not open or the worker was already stopped). A failed read
     * clears `running`, and the capture is then released exactly once. A frame whose
     * statistics raise ends `run()` with that error: nothing is published for it, and the
     * release is never reached.
     */
    method Run(opens: bool, feed: seq<Option<Frame>>) returns (raised: Option<StatsError>)
      modifies this
      ensures cap != null && fresh(cap) && cap.source == videoSource
      ensures var frames := if opens && old(running) then ReadPrefix(feed) else [];
              var log := Process(model, confThreshold, frames);
              raised == log.raised && published == old(published) + log.emitted
      ensures raised.None? ==> cap.releaseCount == 1 && !cap.isOpen
      ensures raised.None? && opens && old(running) ==> !running && cap.readCount == |ReadPrefix(feed)| + 1
      ensures !(opens && old(running)) ==> raised.None? && running == old(running) && cap.readCount == 0
      ensures raised.Some? ==> running && cap.releaseCount == 0 && cap.readCount == |published| - |old(published)| + 1
    {
      var c := new VideoCapture(videoSource, opens, feed);
      cap := c;
      ghost var seen: seq<Frame> := [];
      while running && c.isOpen
        invariant cap == c && c.source == videoSource && c.isOpen == opens && c.releaseCount == 0
        invariant |seen| <= |feed| && c.pending == feed[|seen|..] && c.readCount == |seen|
        invariant forall i :: 0 <= i < |seen| ==> feed[i] == Some(seen[i])
        invariant running == old(running)
        invariant |seen| > 0 ==> opens && old(running)
        invariant Process(model, confThreshold, seen).raised.None?
        invariant published == old(published) + Process(model, confThreshold, seen).emitted
        decreases |c.pending|
      {
        var ok, frame := c.Read();
        if !ok {
          running := false;
          ReadPrefixUnique(feed, seen);
          break;
        }
        var result := model.infer(frame.value, confThreshold);
        var annotated := result.plotted;
        var stats := ExtractStats(result.boxes, model.names);
        if stats.Failure? {
          ProcessStopsAt(model, confThreshold, feed, seen, frame.value);
          raised := Some(stats.error);
          return;
        }
        ProcessSnoc(model, confThreshold, seen, frame.value);
        published := published + [(annotated, stats.value)];
        seen := seen + [frame.value];
      }
      c.Release();
      raised := None;
    }

    /** `stop()`: asks the loop to end; waiting for the thread is outside the model. */
    method Stop()
      modifies this`running
      ensures !running
    {
      running := false;
    }
  }
}
