/** The scheduler as its measures and effects evidently intend it: an arriving chunk does
    not tear down the player that is sounding, and `accumulatedTime` is kept in the same
    seconds that `resumePlayback` subtracts. */
module CorrectedController {
  import opened Results
  import opened PodcastTypes
  import opened AudioControllerHook
  import opened ControllerTrace

  /** A chunk arrives and the player that is sounding is kept, so its end is still
      reported. */
  function ChunkArrivedKeepingPlayer(c: Controller, chunk: AudioChunk): (s: Step)
    requires Valid(c)
    ensures Valid(s.next) && s.commands == []
    ensures s.next.chunks == c.chunks + [chunk]
    ensures s.next.awaitingEnd == c.awaitingEnd && s.next.isPlaying == c.isPlaying
    ensures s.next.startTime == c.startTime && s.next.index == c.index && s.next.ready == c.ready
  {
    Step(Append(c, chunk), [])
  }

  /** While the last chunk sounds, a new chunk arrives. With the player kept, the end of
      the sounding chunk starts the new one; as written, the arrival stops the player and
      the end never comes, so nothing is played. */
  lemma ArrivalThenEndPlaysArrival(c: Controller, chunk: AudioChunk, now: real, reply: Reply)
    requires Valid(c) && c.ready && c.awaitingEnd && c.startTime.Some?
    requires |c.chunks| > 0 && c.index == |c.chunks| - 1
    requires reply.Ok?
    ensures var kept := ChunkArrivedKeepingPlayer(c, chunk).next;
            var s := Apply(kept, Ended(now, reply));
            s.commands == [PlayChunk(|c.chunks|, 0.0)] && s.next.isPlaying
    ensures var stopped := Apply(c, Arrive(chunk)).next;
            Apply(stopped, Ended(now, reply)).commands == []
  {
    var kept := ChunkArrivedKeepingPlayer(c, chunk).next;
    assert kept.index < |kept.chunks| - 1;
  }

  /** `playNextChunk` with `accumulatedTime` set to the known durations of the chunks
      before the one it starts, the measure `resumePlayback` subtracts. */
  function StartMeasuredByDurations(c: Controller, now: real, reply: Reply): (s: Step)
    requires Valid(c)
    ensures Valid(s.next) && Keeps(c, s.next)
    ensures s.commands == PlayNextChunk(c, now, reply).commands
    ensures |s.commands| > 0 && reply.Ok? ==>
              && s.next.accumulated == KnownTotal(c.chunks[..c.index + 1])
              && s.next.index == c.index + 1
              && s.next.startTime == Some(now) && s.next.isPlaying
              && s.next.chunks == c.chunks && s.next.rate == c.rate && s.next.ready == c.ready
    ensures !(|s.commands| > 0 && reply.Ok?) ==> s == PlayNextChunk(c, now, reply)
  {
    var s := PlayNextChunk(c, now, reply);
    if |s.commands| > 0 && reply.Ok? then
      var acc := KnownTotal(c.chunks[..c.index + 1]);
      Step(s.next.(accumulated := acc, currentTime := acc), s.commands)
    else s
  }

  /** With that measure, pausing a chunk within its known duration and resuming plays the
      same chunk from the point where it was paused. */
  lemma DurationMeasureResumesInPlace(c: Controller, now: real, paused: real, resumed: real, reply: Reply)
    requires Valid(c) && c.ready && c.index < |c.chunks| - 1 && reply.Ok?
    requires 0.0 <= Elapsed(paused, now, c.rate) < KnownDuration(c.chunks[c.index + 1])
    ensures var d := StartMeasuredByDurations(c, now, reply).next;
            var p := TogglePlayback(d, paused, reply).next;
            var r := TogglePlayback(p, resumed, reply);
            && r.commands == [PlayChunk(c.index + 1, Elapsed(paused, now, c.rate))]
            && r.next.startTime.Some?
            && Elapsed(resumed, r.next.startTime.value, c.rate) == Elapsed(paused, now, c.rate)
  {
    var d := StartMeasuredByDurations(c, now, reply).next;
    assert d.chunks[..d.index] == c.chunks[..c.index + 1];
    PauseResumeKeepsOffset(d, paused, resumed, reply);
  }
}
