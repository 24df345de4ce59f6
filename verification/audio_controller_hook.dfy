/** The `useAudioController` hook: a sequential scheduler over the append-only list of
    chunks the socket has delivered. Its refs and its React state become the fields of one
    `Controller` record, and each callback becomes a pure transition. The wall clock
    (`Date.now()`, milliseconds) is a parameter, and the `AudioPlayer` is an abstract sink:
    a transition lists the `Command`s it issues to the player and receives, as a parameter,
    what the awaited `play` settled with. */
module AudioControllerHook {
  import opened Results
  import opened PodcastTypes
  import AudioPlayer

  /** The rates the rate selector offers. */
  const PlaybackRates: seq<real> := [0.5, 0.75, 1.0, 1.25, 1.5, 1.75, 2.0]

  /** Index value before the first chunk has started. */
  const NotStarted: int := -1

  /** Index value written by an interruption: "skip everything buffered so far". */
  const AfterInterruption: int := 100000

  /** The divisor the hook applies to a chunk's base64 character count. */
  const CharsPerSecond: real := 16000.0

  /** What the player's `play` promise settled with: the reported duration, or the error. */
  type Reply = Result<real, AudioPlayer.PlayError>

  /** The calls the hook makes on its `AudioPlayer`. */
  datatype Command = PlayChunk(index: nat, offset: real) | StopAudio | SetRate(rate: real)

  datatype Controller = Controller(
    chunks: seq<AudioChunk>,   // `audioMessages`, owned by the page and only appended to
    interactive: bool,
    ready: bool,               // the player exists and has been initialized
    index: int,                // `currentChunkIndex`
    accumulated: real,         // `accumulatedTime`, seconds
    startTime: Option<real>,   // `playStartTime`, milliseconds
    finishPending: bool,       // `currentFinishCallback` is set
    isPlaying: bool,
    awaitingEnd: bool,         // the current player holds a started chunk whose end it will report
    manuallyPaused: bool,
    rate: real,                // `audioState.playbackRate`
    currentTime: real,         // the displayed position, seconds
    totalDuration: real,       // the displayed total, seconds
    played: set<string>,       // `playedChunkIds`, also reported through `onChunkPlayed`
    timestamp: string)         // the last value passed to `onTimeUpdate`

  datatype Step = Step(next: Controller, commands: seq<Command>)

  /** The states the hook can reach: the index is a position in the list, "not started",
      or the interruption sentinel, and the rate is one the selector offers. */
  predicate Valid(c: Controller) {
    && (c.index == AfterInterruption || NotStarted <= c.index < |c.chunks|)
    && c.rate in PlaybackRates
  }

  /** Two chunks carry the same audio: they differ at most in the duration written back. */
  predicate SameAudio(a: AudioChunk, b: AudioChunk) {
    a.id == b.id && a.audio == b.audio && a.timestamp == b.timestamp && a.format == b.format
  }

  /** `b` starts with the chunks of `a`, each still carrying the same audio. */
  predicate PrefixKept(a: seq<AudioChunk>, b: seq<AudioChunk>) {
    |a| <= |b| && forall i :: 0 <= i < |a| ==> SameAudio(a[i], b[i])
  }

  /** What every handler except a chunk arrival keeps: the mode, the number of chunks and
      their audio; the played set only grows, and not at all in interactive mode. */
  predicate Keeps(c: Controller, d: Controller) {
    && d.interactive == c.interactive
    && |d.chunks| == |c.chunks|
    && PrefixKept(c.chunks, d.chunks)
    && c.played <= d.played
    && (c.interactive ==> d.played == c.played)
  }

  function Min(a: real, b: real): real {
    if a <= b then a else b
  }

  function Max(a: real, b: real): real {
    if a >= b then a else b
  }

  /** The hook's first render. */
  function Initial(interactive: bool): (c: Controller)
    ensures Valid(c) && c.index == NotStarted && |c.chunks| == 0
    ensures !c.ready && !c.isPlaying && !c.awaitingEnd && !c.manuallyPaused && c.played == {}
  {
    Controller([], interactive, false, NotStarted, 0.0, None, false, false, false, false, 1.0, 0.0, 0.0, {}, "")
  }

  /** The hook's measure of a chunk: base64 characters over 16000, whatever the format. */
  function EncodedSeconds(chunk: AudioChunk): (d: real)
    ensures d >= 0.0
  {
    |chunk.audio| as real / CharsPerSecond
  }

  /** `calculateTotalDuration`, and the sum `playNextChunk` gives `accumulatedTime`. */
  function EncodedTotal(chunks: seq<AudioChunk>): (d: real)
    ensures d >= 0.0
  {
    if |chunks| == 0 then 0.0
    else EncodedTotal(chunks[..|chunks| - 1]) + EncodedSeconds(chunks[|chunks| - 1])
  }

  /** `chunk.duration || 0`. */
  function KnownDuration(chunk: AudioChunk): real {
    chunk.duration.GetOr(0.0)
  }

  /** The sum `resumePlayback` uses as the start of the current chunk. */
  function KnownTotal(chunks: seq<AudioChunk>): real {
    if |chunks| == 0 then 0.0
    else KnownTotal(chunks[..|chunks| - 1]) + KnownDuration(chunks[|chunks| - 1])
  }

  /** `audioMessages[i]?.duration || 0`: zero also when `i` is no position of the list. */
  function DurationAt(chunks: seq<AudioChunk>, i: int): real {
    if 0 <= i < |chunks| then KnownDuration(chunks[i]) else 0.0
  }

  /** `(Date.now() - playStartTime) / 1000 * playbackRate`, in seconds of audio. */
  function Elapsed(now: real, start: real, rate: real): real {
    (now - start) / 1000.0 * rate
  }

  /** `playNextChunk`. It does nothing once the index has reached the last chunk.
      Otherwise it moves to the next chunk and plays it from its start; when the play
      settles it records that chunk's id as played (outside interactive mode), sets
      `accumulatedTime` to the hook's measure of every chunk before it, and anchors the
      clock. A failed play leaves the index advanced and only clears `isPlaying`. */
  function PlayNextChunk(c: Controller, now: real, reply: Reply): (s: Step)
    requires Valid(c)
    ensures Valid(s.next) && Keeps(c, s.next)
    ensures !c.ready || c.index >= |c.chunks| - 1 ==> s == Step(c, [])
    ensures c.ready && c.index < |c.chunks| - 1 ==>
              && s.next.index == c.index + 1
              && s.commands == [PlayChunk(c.index + 1, 0.0)]
    ensures s.next.chunks == c.chunks && s.next.manuallyPaused == c.manuallyPaused
    ensures s.next.rate == c.rate && s.next.ready == c.ready
    ensures c.played <= s.next.played
    ensures c.interactive ==> s.next.played == c.played
    ensures !c.interactive && |s.commands| > 0 && reply.Ok? && c.chunks[c.index + 1].id != "" ==>
              s.next.played == c.played + {c.chunks[c.index + 1].id}
    ensures |s.commands| > 0 && c.chunks[c.index + 1].id == "" ==> s.next.played == c.played
    ensures |s.commands| > 0 && reply.Ok? ==>
              && s.next.accumulated == EncodedTotal(c.chunks[..c.index + 1])
              && s.next.currentTime == s.next.accumulated
              && s.next.startTime == Some(now) && s.next.isPlaying && s.next.awaitingEnd
              && s.next.timestamp == c.chunks[c.index + 1].timestamp
    ensures |s.commands| > 0 && reply.Err? ==>
              s.next == c.(index := c.index + 1, isPlaying := false, awaitingEnd := false)
  {
    if !c.ready || c.index >= |c.chunks| - 1 then Step(c, [])
    else
      var i := c.index + 1;
      var chunk := c.chunks[i];
      var advanced := c.(index := i);
      match reply
      case Err(_) => Step(advanced.(isPlaying := false, awaitingEnd := false), [PlayChunk(i, 0.0)])
      case Ok(_) =>
        var played := if !c.interactive && chunk.id != "" then c.played + {chunk.id} else c.played;
        var acc := EncodedTotal(c.chunks[..i]);
        Step(advanced.(timestamp := chunk.timestamp, played := played, accumulated := acc,
                       startTime := Some(now), isPlaying := true, awaitingEnd := true, currentTime := acc,
                       totalDuration := EncodedTotal(c.chunks)),
             [PlayChunk(i, 0.0)])
  }

  /** The index `checkNewMessages` works with: the sentinel becomes the last position. */
  function ResolvedIndex(c: Controller): int {
    if c.index == AfterInterruption then |c.chunks| - 1 else c.index
  }

  /** `checkNewMessages`, the 900 ms poll. It does nothing while the player is not ready,
      while playing, or while manually paused. Otherwise it resolves the interruption
      sentinel to the last position and starts the next chunk exactly when chunks exist
      and the index is "not started" or before the last position. */
  function CheckNewMessages(c: Controller, now: real, reply: Reply): (s: Step)
    requires Valid(c)
    ensures Valid(s.next) && Keeps(c, s.next)
    ensures !c.ready || c.isPlaying || c.manuallyPaused ==> s == Step(c, [])
    ensures c.ready && !c.isPlaying && !c.manuallyPaused ==>
              (|s.commands| > 0 <==>
                 |c.chunks| > 0 && (ResolvedIndex(c) == NotStarted || ResolvedIndex(c) < |c.chunks| - 1))
    ensures |s.commands| > 0 ==> s.commands == [PlayChunk(ResolvedIndex(c) + 1, 0.0)]
    ensures |s.commands| > 0 ==> s == PlayNextChunk(c.(index := ResolvedIndex(c)), now, reply)
    ensures |s.commands| == 0 ==> s.next == c || s.next == c.(index := ResolvedIndex(c))
    ensures c.ready && !c.isPlaying && !c.manuallyPaused && c.index == AfterInterruption ==>
              s == Step(c.(index := |c.chunks| - 1), [])
    ensures s.next.chunks == c.chunks && c.played <= s.next.played
  {
    if !c.ready || c.isPlaying || c.manuallyPaused then Step(c, [])
    else
      var resolved := c.(index := ResolvedIndex(c));
      if |c.chunks| > 0 && (resolved.index == NotStarted || resolved.index < |c.chunks| - 1) then
        PlayNextChunk(resolved, now, reply)
      else Step(resolved, [])
  }

  /** Where `resumePlayback` restarts the current chunk: `accumulatedTime` less the known
      durations of the chunks before it, never negative. */
  function ResumeOffset(c: Controller): (offset: real)
    requires 0 <= c.index <= |c.chunks|
    ensures offset >= 0.0
    ensures offset >= c.accumulated - KnownTotal(c.chunks[..c.index])
    ensures offset == 0.0 || offset == c.accumulated - KnownTotal(c.chunks[..c.index])
  {
    Max(0.0, c.accumulated - KnownTotal(c.chunks[..c.index]))
  }

  /** `resumePlayback`. Before any chunk has started it is `playNextChunk`. With the
      sentinel index the chunk is `undefined`; the resulting TypeError is caught and only
      clears `isPlaying`. When the offset has reached the chunk's known duration (absent
      counts as 0) it is `playNextChunk`. Otherwise it replays the chunk from the offset,
      writes the reported duration back into the chunk, and back-dates the clock anchor
      so that the elapsed time it measures at this instant is exactly the offset. */
  function Resume(c: Controller, now: real, reply: Reply): (s: Step)
    requires Valid(c)
    ensures Valid(s.next) && Keeps(c, s.next)
    ensures !c.ready || c.index == NotStarted ==> s == PlayNextChunk(c, now, reply)
    ensures c.ready && 0 <= c.index < |c.chunks| && ResumeOffset(c) >= KnownDuration(c.chunks[c.index]) ==>
              s == PlayNextChunk(c, now, reply)
    ensures c.ready && !(NotStarted <= c.index < |c.chunks|) ==>
              s == Step(c.(isPlaying := false), [])
    ensures c.ready && 0 <= c.index < |c.chunks| && ResumeOffset(c) < KnownDuration(c.chunks[c.index]) ==>
              && s.commands == [PlayChunk(c.index, ResumeOffset(c))]
              && s.next.index == c.index && s.next.accumulated == c.accumulated
              && s.next.played == c.played
              && (reply.Err? ==> s.next == c.(isPlaying := false, awaitingEnd := false))
              && (reply.Ok? ==>
                    && s.next.isPlaying && s.next.awaitingEnd
                    && s.next.timestamp == c.chunks[c.index].timestamp
                    && s.next.startTime.Some?
                    && Elapsed(now, s.next.startTime.value, c.rate) == ResumeOffset(c)
                    && |s.next.chunks| == |c.chunks|
                    && s.next.chunks[c.index].duration == Some(reply.value)
                    && (forall j :: 0 <= j < |c.chunks| && j != c.index ==> s.next.chunks[j] == c.chunks[j]))
  {
    if !c.ready || c.index == NotStarted then PlayNextChunk(c, now, reply)
    else if !(0 <= c.index < |c.chunks|) then Step(c.(isPlaying := false), [])
    else
      var chunk := c.chunks[c.index];
      var offset := ResumeOffset(c);
      if offset >= KnownDuration(chunk) then PlayNextChunk(c, now, reply)
      else
        match reply
        case Err(_) => Step(c.(isPlaying := false, awaitingEnd := false), [PlayChunk(c.index, offset)])
        case Ok(d) =>
          var anchor := now - offset * 1000.0 / c.rate;
          assert Elapsed(now, anchor, c.rate) == offset by {
            assert now - anchor == offset * 1000.0 / c.rate;
            assert (offset * 1000.0 / c.rate) / 1000.0 == offset / c.rate;
            assert offset / c.rate * c.rate == offset;
          }
          Step(c.(chunks := c.chunks[c.index := chunk.(duration := Some(d))],
                  startTime := Some(anchor), isPlaying := true, awaitingEnd := true,
                  timestamp := chunk.timestamp),
               [PlayChunk(c.index, offset)])
  }

  /** The pausing half of `togglePlayback`. It stops the player, adds the time played in
      the current chunk (elapsed time times rate, clamped to the chunk's known duration)
      to `accumulatedTime` when the clock is anchored, drops the anchor, and marks the
      pause as manual. */
  function Pause(c: Controller, now: real): (s: Step)
    requires Valid(c)
    ensures Valid(s.next) && Keeps(c, s.next)
    ensures s.commands == [StopAudio]
    ensures !s.next.isPlaying && !s.next.awaitingEnd && s.next.manuallyPaused && s.next.startTime.None?
    ensures s.next.currentTime == s.next.accumulated
    ensures c.startTime.Some? ==>
              s.next.accumulated
                == c.accumulated + Min(Elapsed(now, c.startTime.value, c.rate), DurationAt(c.chunks, c.index))
    ensures c.startTime.None? ==> s.next.accumulated == c.accumulated
    ensures c.startTime.Some? ==> s.next.accumulated <= c.accumulated + DurationAt(c.chunks, c.index)
    ensures s.next.index == c.index && s.next.chunks == c.chunks && s.next.played == c.played
  {
    var settled :=
      match c.startTime
      case None => c
      case Some(t) =>
        c.(accumulated := c.accumulated + Min(Elapsed(now, t, c.rate), DurationAt(c.chunks, c.index)),
           startTime := None);
    Step(settled.(isPlaying := false, awaitingEnd := false, currentTime := settled.accumulated,
                  manuallyPaused := true),
         [StopAudio])
  }

  /** `togglePlayback`: pause while playing; otherwise clear the manual pause and resume. */
  function TogglePlayback(c: Controller, now: real, reply: Reply): (s: Step)
    requires Valid(c)
    ensures Valid(s.next) && Keeps(c, s.next)
    ensures c.isPlaying ==> s == Pause(c, now)
    ensures !c.isPlaying ==> s == Resume(c.(manuallyPaused := false), now, reply)
    ensures !c.isPlaying ==> !s.next.manuallyPaused
  {
    if c.isPlaying then Pause(c, now) else Resume(c.(manuallyPaused := false), now, reply)
  }

  /** The `onPlaybackEnd` callback the hook gives the player. Without a clock anchor the
      end is taken as a manual stop and ignored. Otherwise the finish callback is set and
      run: the next chunk plays if one is left, else playback is marked stopped. */
  function PlaybackEnded(c: Controller, now: real, reply: Reply): (s: Step)
    requires Valid(c)
    ensures Valid(s.next) && Keeps(c, s.next)
    ensures c.startTime.None? ==> s == Step(c, [])
    ensures c.startTime.Some? && c.index < |c.chunks| - 1 ==>
              s == PlayNextChunk(c.(finishPending := true, awaitingEnd := false), now, reply)
    ensures c.startTime.Some? && c.index >= |c.chunks| - 1 ==>
              s == Step(c.(finishPending := true, awaitingEnd := false, isPlaying := false), [])
  {
    if c.startTime.None? then Step(c, [])
    else
      var armed := c.(finishPending := true, awaitingEnd := false);
      if c.index < |c.chunks| - 1 then PlayNextChunk(armed, now, reply)
      else Step(armed.(isPlaying := false), [])
  }

  /** `handleInterruption`. It stops the player, drops the finish callback and the clock
      anchor, and parks the index on the sentinel. Its own immediate call of
      `checkNewMessages` is the closure of the first render, which sees a player that is
      not ready and returns at once, so it changes nothing and is not repeated here. */
  function Interrupt(c: Controller): (s: Step)
    requires Valid(c)
    ensures Valid(s.next) && Keeps(c, s.next)
    ensures s.commands == [StopAudio]
    ensures s.next.index == AfterInterruption && s.next.startTime.None?
    ensures !s.next.finishPending && !s.next.isPlaying && !s.next.awaitingEnd
    ensures s.next.chunks == c.chunks && s.next.played == c.played
    ensures s.next.accumulated == c.accumulated && s.next.manuallyPaused == c.manuallyPaused
  {
    Step(c.(finishPending := false, startTime := None, index := AfterInterruption, isPlaying := false,
            awaitingEnd := false),
         [StopAudio])
  }

  /** `handlePlaybackRateChange`: the player's sources take the rate at once and the state
      records it; `accumulatedTime` and the clock anchor are not touched, so the next
      measurement applies the new rate to the whole time since the anchor. */
  function ChangeRate(c: Controller, rate: real): (s: Step)
    requires Valid(c) && rate in PlaybackRates
    ensures Valid(s.next) && Keeps(c, s.next)
    ensures s.commands == [SetRate(rate)]
    ensures s.next == c.(rate := rate)
  {
    Step(c.(rate := rate), [SetRate(rate)])
  }

  /** The 50 ms position tick, which runs only while playing. With no current chunk or no
      anchor it does nothing; otherwise the displayed time is `accumulatedTime` plus the
      elapsed time, clamped to the current chunk's known duration. */
  function Tick(c: Controller, now: real): (d: Controller)
    ensures d == c.(currentTime := d.currentTime)
    ensures !c.isPlaying || !(0 <= c.index < |c.chunks|) || c.startTime.None? ==> d == c
    ensures c.isPlaying && 0 <= c.index < |c.chunks| && c.startTime.Some? ==>
              && d.currentTime <= c.accumulated + DurationAt(c.chunks, c.index)
              && d.currentTime <= c.accumulated + Elapsed(now, c.startTime.value, c.rate)
              && (d.currentTime == c.accumulated + DurationAt(c.chunks, c.index) ||
                  d.currentTime == c.accumulated + Elapsed(now, c.startTime.value, c.rate))
  {
    if !c.isPlaying || !(0 <= c.index < |c.chunks|) || c.startTime.None? then c
    else
      var elapsed := Elapsed(now, c.startTime.value, c.rate);
      c.(currentTime := Min(c.accumulated + elapsed, c.accumulated + KnownDuration(c.chunks[c.index])))
  }

  /** The page appends a chunk from the socket; the total-duration effect recomputes the
      displayed total from the new list. */
  function Append(c: Controller, chunk: AudioChunk): (d: Controller)
    requires Valid(c)
    ensures Valid(d)
    ensures d.chunks == c.chunks + [chunk]
    ensures d.index == c.index && d.played == c.played
    ensures d.totalDuration == EncodedTotal(c.chunks) + EncodedSeconds(chunk)
  {
    assert (c.chunks + [chunk])[..|c.chunks|] == c.chunks;
    c.(chunks := c.chunks + [chunk], totalDuration := EncodedTotal(c.chunks + [chunk]))
  }

  /** A chunk arrives from the socket. The chunk count is a dependency of the callback
      that creates the player, so the effect holding it is cleaned up and run again: the
      old player is stopped and a new one takes its place. The stopped player keeps
      `isStopping` raised and the new one holds no source, so no end is reported for the
      chunk that was sounding, while `isPlaying` and the clock anchor stay as they were. */
  function ChunkArrived(c: Controller, chunk: AudioChunk): (s: Step)
    requires Valid(c)
    ensures Valid(s.next) && s.commands == [StopAudio]
    ensures s.next.chunks == c.chunks + [chunk] && !s.next.awaitingEnd
    ensures s.next.isPlaying == c.isPlaying && s.next.startTime == c.startTime
    ensures s.next.index == c.index && s.next.played == c.played && s.next.ready == c.ready
    ensures s.next.interactive == c.interactive && s.next.manuallyPaused == c.manuallyPaused
  {
    Step(Append(c, chunk).(awaitingEnd := false), [StopAudio])
  }

  /** `initialize()` of the player has resolved. */
  function PlayerReady(c: Controller): (d: Controller)
    requires Valid(c)
    ensures Valid(d) && d.ready
    ensures d == c.(ready := true)
  {
    c.(ready := true)
  }
}
