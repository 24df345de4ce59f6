# Podcast player core, modelled in Dafny

The web client of an interactive podcast app plays a growing list of audio chunks that a
server streams over a socket. In interactive mode it also records the listener's
microphone. This project models the client's core as immutable state and pure transition
functions, and proves properties of them:

- **The playback scheduler** (`useAudioController`), in `AudioControllerHook` and
  `ControllerTrace`.
  - The hook's state is a `Controller` record: chunk list, current index, accumulated
    time, start anchor, played set, flags and rate.
  - The index keeps the code's encoding: `-1` means not started and `100000` means just
    interrupted.
  - Every handler is a function from state to a `Step`: the next state plus the commands
    it sends to the audio engine (`PlayChunk`, `StopAudio`, `SetRate`).
  - The engine's answer to `play` is a parameter. It is either a duration or a decode
    error.
  - `awaitingEnd` records whether the current player holds a started chunk whose end it
    will still report. The end-of-playback event acts only then.
  - The wall clock (`Date.now()`, in milliseconds) is a parameter too.
  - The timers and callbacks that drive the hook are the `Event`s of `ControllerTrace`:
    the 900 ms poll, the 50 ms position tick, the end-of-playback callback, button
    presses, interruptions, rate changes and chunk arrivals. `Run` applies a sequence of
    them.
- **The player** (`AudioPlayer`), in `AudioPlayer` and `Pcm`.
  - Base64 PCM decoding: bytes are read as little-endian int16 and divided by 32768.
  - The duration formula, the source/gain lists, the crossfade and the stop fade.
  - The two 100 ms timers are explicit `Timer` values that fire in order.
  - `atob` and the mp3 decoder are functions supplied in a `Host` record.
- **The capture encoder** (`useAudioRecorder`), in `AudioRecorderHook`.
  - Clamping and asymmetric int16 scaling. ECMAScript truncation is written out in
    `JsNumbers`, and the `ToInt16` wrap in `AudioRecorderHook`.
  - Little-endian packing and frame concatenation, with a loop version proved equal to
    the functional one.
  - The voice-activity test and the `processChunks` state change.
- **The transcript view** (`MessageList`), in `MessageListView`: visible messages, the
  participant map, highlighting, the human participant, and the recording placeholder.
- **The controller view** (`AudioController`), in `AudioControllerView`: `formatTime`,
  the progress width, and which controls exist and are enabled.

Strings are `seq<char>`. Lower-casing covers ASCII letters (`Text`). Times are `real`.

In these places the code departs from what its names and comments suggest; the model follows the code:

- The played set receives the id of the chunk that has just *started*, not the one that
  finished (`ControllerTrace.StartedChunkIsMarkedPlayed`).
- `playNextChunk` does not clear `manuallyPaused`.
- Changing the rate does not re-anchor the clock. The elapsed time of the current chunk
  is rescaled by the new rate from its start.
- After an interruption, chunks that arrive before the next poll passes its guard are
  skipped as well (`ControllerTrace.ResolvingPollSkipsArrivals`).
- Accumulated and total time use the base64 character count / 16000. Resume uses the
  chunk's optional `duration`, treating "absent" as 0. A duration is present only when the
  server sent it with the chunk: the resume writes the player's figure back only after it
  found a known duration longer than the offset. A chunk that arrives without a duration
  therefore counts as 0 long on every resume, so every resume skips it
  (`ControllerTrace.ResumeWithoutDurationAdvances`, `ControllerTrace.RunKeepsNoDurations`).
  The two measures disagree, so pause and resume can skip the rest of a chunk (see Findings).
- Every chunk arrival re-runs the effect that owns the player, because the callback that
  creates the player depends on the chunk count. Its cleanup stops the sounding chunk,
  and the new player holds nothing, so no end is ever reported for that chunk
  (`AudioControllerHook.ChunkArrived`; see Findings).

## Model

| member | source | states |
|---|---|---|
| Pcm.ReadInt16LE | app/lib/audio/AudioPlayer.ts:39 | the value read from two bytes has those bytes as its unsigned 16-bit pattern (low byte first), and is negative exactly when the high byte is at least 128 |
| Pcm.Int16View | app/lib/audio/AudioPlayer.ts:39 | an `Int16Array` view exists exactly when the byte count is even; it has half as many values, value i being the little-endian int16 of bytes 2i, 2i+1 |
| Pcm.PackInt16LE | app/hooks/useAudioRecorder.ts:43-44 | the packed buffer has exactly two bytes per value, and bytes 2i, 2i+1 are the little-endian encoding of value i |
| Pcm.ViewOfPacked | app/hooks/useAudioRecorder.ts:43-44 | viewing a packed buffer as int16 values gives back exactly the values that were packed |
| Pcm.WriteReadInt16 | app/lib/audio/AudioPlayer.ts:39 | any two bytes are the encoding of the value they decode to |
| AudioPlayer.PcmDuration | app/lib/audio/AudioPlayer.ts:25-29 | the PCM duration times 32000 is the byte count, i.e. (bytes / 2) / 16000 seconds, and is never negative |
| AudioPlayer.ToSample | app/lib/audio/AudioPlayer.ts:44 | every sample lies in [-1, 1) and is its int16 value divided by 32768 |
| AudioPlayer.CreateAudioFromPcm | app/lib/audio/AudioPlayer.ts:31-47 | decoding succeeds exactly for a non-zero even byte count; an odd count fails with `OddByteLength` (the `Int16Array` view throws), and an empty payload fails with `EmptyBuffer` (`createBuffer` refuses zero frames); on success the buffer has bytes/2 samples at 16000 Hz, sample i is the little-endian int16 of bytes 2i, 2i+1 over 32768, and every sample is in [-1, 1) |
| AudioPlayer.DecodeAudio | app/lib/audio/AudioPlayer.ts:124-131 | `mp3` goes to the decoder and succeeds exactly when it does; every other tag goes through `atob` and the PCM path, and succeeds exactly when the base64 is valid and the byte count is even and non-zero |
| AudioPlayer.TagIrrelevantOffMp3 | app/lib/audio/AudioPlayer.ts:124-131 | two chunks that differ only in a non-`mp3` format tag decode identically |
| AudioPlayer.Play | app/lib/audio/AudioPlayer.ts:70-122 | `play` always lowers `isStopping`; a decode error leaves the lists alone and surfaces as the error; on success it appends exactly one source (configured rate, given offset) and one gain, fades the previous newest gain and schedules one shift when a pair existed, keeps the other gains, keeps the lists paired, and reports the PCM formula for `pcm_16000` and the decoder's duration otherwise |
| AudioPlayer.Stop | app/lib/audio/AudioPlayer.ts:133-145 | `stop` raises `isStopping`, fades every gain, keeps the sources and schedules one cleanup |
| AudioPlayer.FireTimer | app/lib/audio/AudioPlayer.ts:50-62 | the crossfade timer drops the oldest pair; the cleanup timer leaves both lists empty and reports one end callback per live source only while `isStopping` is down; timers fire in order and pairing is kept |
| AudioPlayer.SourceEnded | app/lib/audio/AudioPlayer.ts:85-89 | a source's end calls `onPlaybackEnd` exactly when `isStopping` is down and the source had not ended before; nothing else changes |
| AudioPlayer.SetPlaybackRate | app/lib/audio/AudioPlayer.ts:147-151 | every current source gets the new rate and nothing else changes; the configured rate for later sources stays |
| AudioPlayer.StopThenPlayCutsNewSource | app/lib/audio/AudioPlayer.ts:133-145 | as written, a successful `play` within 100 ms of `stop` is torn down by stop's cleanup, and at least one end callback fires |
| CorrectedPlayer.StopThenPlayKeepsNewVoice | app/lib/audio/AudioPlayer.ts:133-145 | with timers bound to the sources they were scheduled for, the same sequence leaves exactly the new source, unsilenced, and its own end still reports the end of playback |
| CorrectedPlayer.PendingTimersSpareNewVoice | app/lib/audio/AudioPlayer.ts:101-106 | no timer pending when a source starts can remove that source |
| CorrectedPlayer.Play | app/lib/audio/AudioPlayer.ts:70-122 | the corrected `play` appends one source under an unused id and schedules removal of exactly the source it faded; it succeeds exactly when decoding does and reports the same durations as the original |
| AudioControllerHook.Initial | app/hooks/useAudioController.ts:27-44 | the hook starts not ready, not playing, not paused, at index -1, with no chunks and nothing played, in a valid state |
| AudioControllerHook.ChunkArrived | app/hooks/useAudioController.ts:47-78 | an arrival re-runs the player effect: the player is told to stop and no end is awaited any more, while `isPlaying`, the anchor, the index and the played set stay as they were and the list gains the chunk |
| AudioControllerHook.Append | app/hooks/useAudioController.ts:80-96 | a new chunk extends the list and the total becomes the old total plus the new chunk's character count / 16000; the index and played set stay |
| AudioControllerHook.PlayNextChunk | app/hooks/useAudioController.ts:98-139 | nothing happens unless ready and index < count-1; otherwise the index advances by exactly one and that chunk is played from 0; on success the anchor is `now`, an end is awaited, the chunk's timestamp is the one reported through `onTimeUpdate`, the accumulated time is the measure of the earlier chunks, and the id enters the played set outside interactive mode, while an empty id leaves the set unchanged; on failure only `isPlaying` drops; the played set only grows and is fixed in interactive mode |
| AudioControllerHook.CheckNewMessages | app/hooks/useAudioController.ts:163-179 | no action when not ready, playing or manually paused; otherwise the sentinel index becomes count-1, and playback starts (as `playNextChunk` from the resolved index) exactly when chunks exist and the index is -1 or below count-1 |
| AudioControllerHook.ResumeOffset | app/hooks/useAudioController.ts:200-203 | the resume offset is never negative and equals max(0, accumulated - sum of the earlier chunks' known durations) |
| AudioControllerHook.Resume | app/hooks/useAudioController.ts:193-225 | not ready or index -1 acts as `playNextChunk`; an offset at or past the known duration also advances; otherwise the same chunk plays from the offset, its timestamp is reported, its duration is written back, and the anchor is back-dated so that the elapsed time equals the offset |
| AudioControllerHook.Pause | app/hooks/useAudioController.ts:228-246 | pausing stops the engine, adds min(elapsed, known duration) to the accumulated time when there was an anchor (never more than the chunk's duration), clears the anchor, sets `manuallyPaused`, and shows the accumulated time |
| AudioControllerHook.TogglePlayback | app/hooks/useAudioController.ts:227-251 | the button pauses when playing; otherwise it clears `manuallyPaused` and resumes |
| AudioControllerHook.PlaybackEnded | app/hooks/useAudioController.ts:49-62 | an end callback with no anchor is ignored; otherwise the next chunk plays if there is one, else playback stops |
| AudioControllerHook.Interrupt | app/hooks/useAudioController.ts:263-270 | an interruption stops the engine, sets the sentinel index, and clears the anchor, the pending callback and `isPlaying`; chunks, played set and accumulated time stay |
| AudioControllerHook.ChangeRate | app/hooks/useAudioController.ts:258-261 | a listed rate is passed to the engine and becomes the state's rate; nothing else changes |
| AudioControllerHook.Tick | app/hooks/useAudioController.ts:141-161 | the tick changes only the displayed time; the displayed time never exceeds accumulated plus the current chunk's known duration, nor accumulated plus the elapsed time; with no anchor, no current chunk, or no playback, nothing changes |
| ControllerTrace.ApplyOther | app/hooks/useAudioController.ts:70-78 | arrivals, readiness, interruptions, rate changes and ticks never mark a chunk played and never play one: the only command they issue is a stop (an arrival or an interruption), or the chosen rate on a rate change |
| ControllerTrace.Run | app/hooks/useAudioController.ts:111-114 | over any run of events the state stays valid, the chunk list only grows and every earlier chunk stays in place with the same id, audio, timestamp and format (only a duration can be written back), the played set only grows, and in interactive mode the played set never changes |
| ControllerTrace.EncodedTotalConcat | app/hooks/useAudioController.ts:116-122 | the character-count measure of a chunk list is additive over concatenation |
| ControllerTrace.PlayNextAdvancesAccumulated | app/hooks/useAudioController.ts:116-122 | moving to the next chunk adds exactly the current chunk's measure to the accumulated time |
| ControllerTrace.TotalSplitsAtCurrentChunk | app/hooks/useAudioController.ts:116-134 | after a chunk starts, the total duration is the accumulated time plus the measure of the current and later chunks |
| ControllerTrace.PauseResumeKeepsOffset | app/hooks/useAudioController.ts:200-246 | provided the accumulated time equals the known durations of the earlier chunks, and the time elapsed in the current chunk is below its known duration, pause then resume plays the same chunk from the elapsed offset, and the new anchor makes the elapsed time at resume equal to it. `playNextChunk` does not establish the first hypothesis (see Findings) |
| ControllerTrace.ResumeWithoutDurationAdvances | app/hooks/useAudioController.ts:202-208 | resuming a chunk that arrived without a duration always advances to the next chunk |
| ControllerTrace.StepKeepsNoDurations | app/hooks/useAudioController.ts:202-214 | the write-back of the reported duration is reached only past the `offsetInChunk >= (chunk.duration \|\| 0)` check, so no event gives a duration to a chunk list that has none, provided an arriving chunk carries none |
| ControllerTrace.RunKeepsNoDurations | app/hooks/useAudioController.ts:193-225 | a chunk's optional `duration` (declared at app/types/podcast.ts:13) can only come from the server: over any run whose arrivals carry no duration, no chunk ever has one |
| ControllerTrace.RunKeepsCut | app/hooks/useAudioController.ts:163-179 | once the index is at or past a cut, or is the sentinel with no anchor, no run without button presses ever plays a chunk below the cut |
| ControllerTrace.InterruptionNeverReplays | app/hooks/useAudioController.ts:263-270 | after an interruption, no chunk present at that moment is ever played again by any run without button presses: those positions keep the same chunks, and no play command names one of them |
| ControllerTrace.ResolvingPollSkipsArrivals | app/hooks/useAudioController.ts:170-172 | the poll that resolves the sentinel plays nothing, and every chunk present at that poll stays unplayed |
| ControllerTrace.ArrivalStallsPlayback | app/hooks/useAudioController.ts:70-78 | as written, an arrival while playing stops the player, and afterwards no run without the play/pause button or an interruption plays anything, while `isPlaying` stays raised |
| ControllerTrace.RunStaysStalled | app/hooks/useAudioController.ts:163-167 | a hook that shows itself playing with no end awaited stays so, and plays nothing, over any run without the play/pause button or an interruption: every poll returns at its `isPlaying` guard |
| ControllerTrace.EncodedMeasureSkipsPausedChunk | app/hooks/useAudioController.ts:116-122 | as written, two 16000-character chunks of 0.375 s each: pausing 100 ms into the second and resuming plays nothing, because the offset 1.1 - 0.375 is past the chunk's end |
| CorrectedController.ArrivalThenEndPlaysArrival | app/hooks/useAudioController.ts:47-78 | with the player kept across an arrival, the end of the sounding last chunk starts the chunk that arrived; as written, that end never comes and nothing plays |
| CorrectedController.StartMeasuredByDurations | app/hooks/useAudioController.ts:116-134 | the corrected start issues the same play as `playNextChunk` and sets the accumulated time to the known durations of the chunks before the started one |
| CorrectedController.DurationMeasureResumesInPlace | app/hooks/useAudioController.ts:193-246 | with the corrected start, pausing a chunk within its known duration and resuming plays that chunk from the point where it was paused, with the anchor matching |
| ControllerTrace.StartedChunkIsMarkedPlayed | app/hooks/useAudioController.ts:111-114 | the first poll of a non-interactive session plays chunk 0 and marks that chunk, the one just started, as played |
| JsNumbers.Trunc | app/hooks/useAudioRecorder.ts:39 | the conversion rounds toward zero: it is the floor for non-negative values and within one of the value on its side of zero |
| JsNumbers.TruncQuotientBounds | app/components/PodcastView/AudioController.tsx:34 | the truncated quotient times the divisor lies within one divisor of the dividend, on the dividend's side |
| JsNumbers.Remainder | app/components/PodcastView/AudioController.tsx:34 | `%` takes the dividend's sign, is smaller in size than the divisor, and differs from the dividend by the truncated quotient times the divisor |
| JsNumbers.RemainderUnique | app/components/PodcastView/AudioController.tsx:34 | any value on the dividend's side of zero, within one divisor of it and differing from the dividend by a whole multiple of the divisor is the remainder, so the contract determines `%` |
| AudioRecorderHook.Clamp | app/hooks/useAudioRecorder.ts:38 | a clamped sample lies in [-1, 1], equal to the input inside it and to the nearer bound outside |
| AudioRecorderHook.ToInt16 | app/hooks/useAudioRecorder.ts:39 | storing into an int16 buffer keeps the truncated value whenever it fits |
| AudioRecorderHook.ScaleSample | app/hooks/useAudioRecorder.ts:38-39 | inputs at or above 1 give 32767 and at or below -1 give -32768; inside, the value is the truncation of x·0x7FFF (x ≥ 0) or x·0x8000 (x < 0); the sign is kept |
| AudioRecorderHook.ScaleMonotone | app/hooks/useAudioRecorder.ts:39 | the sample encoding is monotone |
| AudioRecorderHook.EncodeFrame | app/hooks/useAudioRecorder.ts:33-47 | the encoded frame has two bytes per sample, the little-endian bytes of each scaled sample in order |
| AudioRecorderHook.EncodedFrameReadsBack | app/hooks/useAudioRecorder.ts:43-44 | reading the encoded bytes back as the player does gives exactly the scaled samples |
| AudioRecorderHook.DetectVoiceActivity | app/hooks/useAudioRecorder.ts:52-57 | voice activity holds exactly when the frame is non-empty and its mean square exceeds 0.0001 |
| AudioRecorderHook.VoiceActivityIsRmsAboveThreshold | app/hooks/useAudioRecorder.ts:52-57 | for the non-negative square root of the mean square, the test holds exactly when it exceeds 0.01 |
| AudioRecorderHook.TotalLength | app/hooks/useAudioRecorder.ts:63 | the summed frame lengths are the length of the concatenation |
| AudioRecorderHook.FrameInPlace | app/hooks/useAudioRecorder.ts:65-70 | sample j of frame k sits at the summed length of the earlier frames plus j in the concatenation |
| AudioRecorderHook.ConcatenateFrames | app/hooks/useAudioRecorder.ts:63-70 | the copy loop over a zero-filled buffer yields exactly the frames in arrival order, with length the sum of the frame lengths |
| AudioRecorderHook.OnWorkletMessage | app/hooks/useAudioRecorder.ts:99-103 | a message with audio data appends that frame; one without leaves the recorder unchanged |
| AudioRecorderHook.ProcessChunks | app/hooks/useAudioRecorder.ts:59-81 | with no buffered frames nothing is sent and nothing changes; otherwise the encoding of the concatenation is sent (two bytes per buffered sample), the buffer is emptied, and `isActive` becomes the voice-activity result |
| AudioRecorderHook.Report | app/hooks/useAudioRecorder.ts:141-150 | outside interactive mode the hook reports neither activity nor initialization; in it, the state's flags |
| Text.Lower | app/components/PodcastView/MessageList.tsx:31 | lower-casing keeps the length, moves each letter A-Z up by 32 to its lower-case letter, leaves every other character as it is, and so leaves no upper-case letter |
| Text.NatToString | app/components/PodcastView/AudioController.tsx:35 | the decimal rendering is non-empty, all digits, without a leading zero, one character exactly below 10 |
| Text.DigitsRoundTrip | app/components/PodcastView/AudioController.tsx:35 | reading a rendered number back gives the number |
| Text.PadStart | app/components/PodcastView/AudioController.tsx:35 | padding reaches the width, ends with the original string, and fills the front with the fill character |
| MessageListView.ParticipantMap | app/components/PodcastView/MessageList.tsx:28-34 | the keys are exactly the lower-cased participant ids, and each entry is a participant whose lower-cased id is its key |
| MessageListView.LastOccurrenceWins | app/components/PodcastView/MessageList.tsx:28-34 | among participants sharing a lower-cased id, the last one is in the map |
| MessageListView.SpeakerLookupIgnoresCase | app/components/PodcastView/MessageList.tsx:137 | a message finds a participant exactly when some id equals its speaker up to case, and then the last such participant |
| MessageListView.ShownPositions | app/components/PodcastView/MessageList.tsx:36-38 | the visible positions are strictly increasing, each shown by the filter, and every shown position is among them |
| MessageListView.VisibleMessages | app/components/PodcastView/MessageList.tsx:36-38 | the visible list is the messages at the shown positions, in order, so it is a subsequence of the transcript |
| MessageListView.InteractiveShowsAll | app/components/PodcastView/MessageList.tsx:36-38 | in interactive mode every message is visible |
| MessageListView.VisibilityGrowsWithPlayed | app/components/PodcastView/MessageList.tsx:36-38 | a larger played set hides no message that a smaller one showed |
| MessageListView.StrictlyIncreasingSubset | app/components/PodcastView/MessageList.tsx:36-38 | a strictly increasing position list contained in another is no longer than it |
| MessageListView.LatestTimestamp | app/components/PodcastView/MessageList.tsx:41 | the latest timestamp exists exactly when something is visible, and is the last visible message's |
| MessageListView.Highlighted | app/components/PodcastView/MessageList.tsx:138 | a visible message is highlighted exactly when its timestamp equals the last visible one's, so the last one always is |
| MessageListView.HumanParticipant | app/components/PodcastView/MessageList.tsx:75 | the result is the first human participant, and none exactly when there is no human |
| MessageListView.ShowRecordingMessage | app/components/PodcastView/MessageList.tsx:69-78 | the placeholder shows exactly when the flag is raised and the last visible message is not the human participant's (none visible, no human, or another speaker) |
| MessageListView.ResetRecordingFlag | app/components/PodcastView/MessageList.tsx:81-89 | the flag drops exactly when the last visible message is the human's, and is otherwise kept |
| MessageListView.ResetAgreesWithPlaceholder | app/components/PodcastView/MessageList.tsx:69-89 | the reset never changes whether the placeholder shows, and after it the placeholder is hidden while the human spoke last |
| AudioControllerView.FormatTime | app/components/PodcastView/AudioController.tsx:30-36 | NaN renders as "0:00"; a non-negative time renders with a colon followed by two characters |
| AudioControllerView.MinutesAndSecondsSplit | app/components/PodcastView/AudioController.tsx:33-34 | for s ≥ 0 the minutes are ⌊s⌋ div 60 and the seconds ⌊s⌋ mod 60, so 60·minutes + seconds = ⌊s⌋ |
| AudioControllerView.FormatTimeReadsBack | app/components/PodcastView/AudioController.tsx:33-35 | for s ≥ 0 the label is that of ⌊s⌋ div 60 minutes and ⌊s⌋ mod 60 seconds |
| AudioControllerView.LabelReadsBack | app/components/PodcastView/AudioController.tsx:35 | for seconds below 60, reading a label back (digits, a colon, exactly two digits) recovers exactly the minutes and seconds it was made of |
| AudioControllerView.ParseJoined | app/components/PodcastView/AudioController.tsx:35 | any digit string joined by a colon to two digits reads back as the values of those two digit strings |
| AudioControllerView.TwoDigitsRoundTrip | app/components/PodcastView/AudioController.tsx:35 | seconds below 60 pad to exactly two digits that read back as the seconds |
| AudioControllerView.ProgressPercent | app/components/PodcastView/AudioController.tsx:85 | the width is 0 when the duration is 0, and otherwise satisfies width·duration = currentTime·100 |
| AudioControllerView.ProgressWithinTrack | app/components/PodcastView/AudioController.tsx:85 | while 0 ≤ currentTime ≤ duration the width lies in [0, 100] and reaches 100 at the end |
| AudioControllerView.ControlsFor | app/components/PodcastView/AudioController.tsx:80-174 | progress shows only outside interactive mode; skip and rate are enabled exactly when the controller holds audio chunks; the centre is a microphone exactly in interactive mode, otherwise a play/pause enabled exactly with messages and showing pause while playing; the rate options are exactly the seven rates |
| AudioControllerView.ClickCentre | app/components/PodcastView/AudioController.tsx:125-151 | a centre click acts exactly on an enabled play/pause button, and then toggles playback |
| AudioControllerView.SelectRate | app/components/PodcastView/AudioController.tsx:163-173 | choosing an option acts exactly when the selector is enabled, and sets the chosen listed rate |
| AudioControllerView.ControlsNeverToggleInteractively | app/components/PodcastView/AudioController.tsx:120-167 | in interactive mode no click toggles playback; with no messages no control acts; otherwise the centre click toggles playback |

## Left out

- `atob`, `btoa` and the mp3 decoder (`fetch` plus `decodeAudioData`) are not modelled. The player takes `atob` and the decoder as functions in its `Host` record, and the recorder returns the bytes it would hand to `btoa`.
- The Web Audio graph is left out: the `AudioContext`, gain ramps, `initialize()` and its resume of a suspended context. A gain is reduced to a "fading out" flag.
- A shifted-out source's later natural end is not modelled. Only `SourceEnded` on sources still in the list, and the ends caused by the cleanup, are.
- React state and effect timing is left out.
  - The hook's state updates apply at once.
  - Creating the player and `initialize()` collapse into one `ready` flag (`PlayerReady`). The source's `playNextChunk` and `resumePlayback` only check that a player object exists, not `isReady`, so a play/pause click after the player is created but before `initialize()` resolves starts chunk 0 there, while the model does nothing until `ready`. An arrival stops the old player (`ChunkArrived`); the new player is the same abstract sink, holding no source, with the rate the state records.
  - The immediate re-check inside `handleInterruption` reads a first-render closure whose `isReady` is false, so it does nothing and is modelled as nothing.
- The promise in `playNextChunk`/`resumePlayback` is not modelled as asynchronous. The reply from `play` is taken at the time of the call, so no event can run between the call and its settling.
- `Pcm.Int16View` and `Pcm.PackInt16LE` assume a little-endian host. `new Int16Array(buffer)` uses the host's byte order, which is little-endian on every common platform but not guaranteed.
- Floating point is modelled as `real`. NaN appears only as `formatTime`'s input; Infinity and IEEE rounding, including `Math.sqrt` in the voice test, are left out. The voice test compares squares instead.
- `AudioControllerView.FormatTime`: its contract covers NaN and non-negative inputs only. For negative inputs the model computes the code's output (for example "-1:-5"), but no property is stated about it. Number-to-string exponent notation for huge values is also not modelled.
- `MessageListView.SpeakerLookupIgnoresCase`: the participant map is a plain object, so a speaker that lower-cases to a key inherited from `Object.prototype` (such as "constructor") finds that inherited value although no participant has the id. The model's map has only the participants' keys, so such a speaker finds nothing; the names and avatars shown for such speakers are not modelled.
- `Text.Lower`: only ASCII letters are lower-cased. Unicode case mapping is not modelled.
- The 600 ms delay before the recording placeholder, scrolling, animations and `showInitialLoading` are left out. `shouldShowRecording` is an input.
- `skipTime` is left out: it only logs.
- The recorder's `try`/`catch` around `processChunks` is left out, because none of the modelled steps can fail.
- Microphone set-up (`getUserMedia`, worklet loading, `MediaRecorder`) and the teardown effect are left out. `AudioRecorderHook.Initialized` stands for a successful set-up.
- The audio worklet processor is left out: it is an audio-thread copy whose point is concurrency.
- Logging is left out, and so are the socket and HTTP clients, PDF extraction, the form components and the page that passes `currentSpeaker` to the controller view.

## Findings

| source | as written | input that shows it | evidently intended | confidence | as-written member | corrected member |
|---|---|---|---|---|---|---|
| app/hooks/useAudioController.ts:70-78 | the effect that owns the player depends on `audioMessages.length`, so its cleanup stops the player on every arrival and a new player replaces it | a chunk arrives while another is playing | arrivals extend the list and the sounding chunk plays to its end, which starts the next one | medium, not executed (follows React's effect-cleanup rule) | ControllerTrace.ArrivalStallsPlayback | CorrectedController.ArrivalThenEndPlaysArrival |
| app/hooks/useAudioController.ts:116-122 | `accumulatedTime` is set to the base64 character count / 16000 of the earlier chunks, while `resumePlayback` subtracts their `duration` in seconds | two 16000-character PCM chunks whose 0.375 s durations the server sent with them; pause 100 ms into the second, then resume | the accumulated time is in the seconds the resume subtracts, and the chunk continues from 0.1 s | medium, not executed | ControllerTrace.EncodedMeasureSkipsPausedChunk | CorrectedController.DurationMeasureResumesInPlace |
| app/lib/audio/AudioPlayer.ts:133-145 | `stop()` schedules `cleanupSources()` 100 ms later, and that removes whatever sources exist then. `play()` lowers `isStopping` | pause then resume within 100 ms: `stop()`, then `play(chunk)` decodes successfully before the cleanup timer fires | the cleanup removes only the sources that `stop()` faded, and the resumed chunk keeps playing | medium, not executed (assumes `ended` fires on the stopped source, as Web Audio does) | AudioPlayer.StopThenPlayCutsNewSource | CorrectedPlayer.StopThenPlayKeepsNewVoice |

With the code as written, the resumed source is stopped and removed. Its `ended` event sees `isStopping` lowered and calls `onPlaybackEnd`. The hook has a fresh anchor, so it treats the chunk as finished and moves on. The rest of the chunk is skipped. `CorrectedPlayer` gives every source an id and binds each timer to the ids it was scheduled for. `stop()` marks its sources silenced instead of relying on the shared `isStopping` flag.

On an arrival during playback, the stopped player keeps `isStopping` raised, so its sources never report an end. The new player holds nothing. The hook still shows itself playing, so every poll returns at its guard, and playback stays stopped until the play/pause button or an interruption. `CorrectedController.ChunkArrivedKeepingPlayer` keeps the player across arrivals.

The comment in the source's `calculateTotalDuration` takes the base64 length for a sample count, but each 16000 characters hold 12000 bytes, 0.375 s of 16 kHz int16 PCM. `CorrectedController.StartMeasuredByDurations` keeps the accumulated time in the known durations, the measure the resume subtracts.
