/** The `AudioPlayer` class: decoding of a chunk, the paired lists of buffer sources and
    gain nodes that implement the 100 ms crossfade, the `isStopping` flag that silences the
    end callback, and rate propagation. The class's mutable fields become one immutable
    `Player` record; the two `setTimeout` callbacks become `Timer` events that the
    environment fires in the order they were scheduled (they all share one delay). */
module AudioPlayer {
  import opened Results
  import opened PodcastTypes
  import opened Pcm

  /** The fade-in / fade-out window, and the delay of every cleanup timer, in seconds. */
  const CrossfadeSeconds: real := 0.1

  /** A decoded `AudioBuffer`: mono samples, their rate, and the duration it reports. */
  datatype AudioBuffer = AudioBuffer(samples: seq<real>, sampleRate: nat, duration: real)

  datatype PlayError =
    | InvalidBase64   // `atob` threw
    | OddByteLength   // the int16 view of an odd-length buffer threw
    | EmptyBuffer     // `createBuffer` refused a buffer of zero frames
    | DecodeFailed    // the platform's mp3 decoder rejected the payload

  /** The host functions the player calls and this model does not open up: `atob`
      (None when it throws) and the mp3 path, a fetch of a base64 data URL followed by
      `decodeAudioData` (None when either rejects). */
  datatype Host = Host(
    atob: string -> Option<seq<Byte>>,
    decodeMp3: string -> Option<AudioBuffer>)

  /** An `AudioBufferSourceNode` started by `play`: what it plays, at what rate and from
      which offset, and whether it has already fired its `ended` event. */
  datatype Source = Source(buffer: AudioBuffer, rate: real, offset: real, ended: bool)

  /** A `GainNode`; the only part of its ramp the model keeps is whether a fade to
      silence has been scheduled on it. */
  datatype Gain = Gain(fadingOut: bool)

  /** A pending `setTimeout` callback: the crossfade's removal of the oldest pair, or the
      teardown of every pair that `stop` schedules. */
  datatype Timer = ShiftOldest | Cleanup

  datatype Player = Player(
    sources: seq<Source>,
    gains: seq<Gain>,
    isStopping: bool,
    configRate: real,   // the rate given to the constructor, used for every new source
    timers: seq<Timer>)

  /** The two lists describe the same nodes pair by pair. */
  predicate Paired(p: Player) {
    |p.sources| == |p.gains|
  }

  /** The player right after `new AudioPlayer(config)`. */
  function NewPlayer(rate: real): (p: Player)
    ensures Paired(p) && |p.sources| == 0 && |p.timers| == 0
    ensures !p.isStopping && p.configRate == rate
  {
    Player([], [], false, rate, [])
  }

  /** `calculatePCMDuration`: half the decoded byte count, in samples, over 16 kHz. */
  function PcmDuration(byteCount: nat): (d: real)
    ensures d * 32000.0 == byteCount as real
    ensures d >= 0.0
  {
    (byteCount as real / 2.0) / 16000.0
  }

  /** One int16 value as the float sample written into the channel data. */
  function ToSample(v: Int16): (x: real)
    ensures -1.0 <= x < 1.0
    ensures x * 32768.0 == v as real
  {
    v as real / 32768.0
  }

  /** `createAudioFromPCM` applied to the bytes `atob` produced. */
  function CreateAudioFromPcm(bytes: seq<Byte>): (r: Result<AudioBuffer, PlayError>)
    ensures r.Ok? <==> |bytes| > 0 && |bytes| % 2 == 0
    ensures r.Err? ==> (r.error == OddByteLength <==> |bytes| % 2 != 0)
    ensures r.Err? ==> (r.error == EmptyBuffer <==> |bytes| == 0)
    ensures r.Ok? ==> |r.value.samples| == |bytes| / 2 && r.value.sampleRate == SampleRate
    ensures r.Ok? ==> r.value.duration == PcmDuration(|bytes|)
    ensures r.Ok? ==> forall i :: 0 <= i < |r.value.samples| ==>
              r.value.samples[i] == ToSample(ReadInt16LE(bytes[2 * i], bytes[2 * i + 1]))
    ensures r.Ok? ==> forall i :: 0 <= i < |r.value.samples| ==> -1.0 <= r.value.samples[i] < 1.0
  {
    match Int16View(bytes)
    case None => Err(OddByteLength)
    case Some(values) =>
      if |values| == 0 then Err(EmptyBuffer) else
      var samples := seq(|values|, i requires 0 <= i < |values| => ToSample(values[i]));
      Ok(AudioBuffer(samples, SampleRate, |values| as real / SampleRate as real))
  }

  /** `decodeAudio`: only the `mp3` tag goes to the platform decoder; every other tag,
      recognised or not, is read as 16 kHz PCM. */
  function DecodeAudio(chunk: AudioChunk, host: Host): (r: Result<AudioBuffer, PlayError>)
    ensures chunk.format.Mp3? ==> (r.Ok? <==> host.decodeMp3(chunk.audio).Some?)
    ensures chunk.format.Mp3? && r.Ok? ==> r.value == host.decodeMp3(chunk.audio).value
    ensures !chunk.format.Mp3? ==>
              (r.Ok? <==> (host.atob(chunk.audio).Some? && |host.atob(chunk.audio).value| > 0
                          && |host.atob(chunk.audio).value| % 2 == 0))
    ensures !chunk.format.Mp3? && r.Ok? ==>
              r.value.duration == PcmDuration(|host.atob(chunk.audio).value|)
    ensures r.Err? ==> (r.error == DecodeFailed <==> chunk.format.Mp3?)
  {
    if chunk.format.Mp3? then
      match host.decodeMp3(chunk.audio)
      case None => Err(DecodeFailed)
      case Some(buffer) => Ok(buffer)
    else
      match host.atob(chunk.audio)
      case None => Err(InvalidBase64)
      case Some(bytes) => CreateAudioFromPcm(bytes)
  }

  /** What `play` leaves behind and what its promise settles with. */
  datatype PlayOutcome = PlayOutcome(player: Player, duration: Result<real, PlayError>)

  /** `play(chunk, offset)`. It clears `isStopping` before decoding, so a failed play
      leaves the flag cleared too. On success it fades out the newest existing pair,
      schedules the removal of the oldest one, appends one source and one gain node, and
      reports the PCM formula for `pcm_16000` and the decoder's duration otherwise. */
  function Play(p: Player, chunk: AudioChunk, offset: real, host: Host): (o: PlayOutcome)
    ensures !o.player.isStopping && o.player.configRate == p.configRate
    ensures o.duration.Ok? <==> DecodeAudio(chunk, host).Ok?
    ensures o.duration.Err? ==> o.duration.error == DecodeAudio(chunk, host).error
    ensures o.duration.Err? ==> o.player == p.(isStopping := false)
    ensures o.duration.Ok? ==>
              && |o.player.sources| == |p.sources| + 1
              && o.player.sources[..|p.sources|] == p.sources
              && o.player.sources[|p.sources|]
                   == Source(DecodeAudio(chunk, host).value, p.configRate, offset, false)
              && |o.player.gains| == |p.gains| + 1
              && o.player.gains[|p.gains|] == Gain(false)
              && (|p.gains| > 0 ==> o.player.gains[|p.gains| - 1].fadingOut)
              && (forall j :: 0 <= j < |p.gains| - 1 ==> o.player.gains[j] == p.gains[j])
    ensures o.duration.Ok? ==>
              o.player.timers == p.timers + (if |p.gains| > 0 then [ShiftOldest] else [])
    ensures o.duration.Ok? && chunk.format.Pcm16000? ==>
              o.duration.value == PcmDuration(|host.atob(chunk.audio).value|)
    ensures o.duration.Ok? && !chunk.format.Pcm16000? ==>
              o.duration.value == DecodeAudio(chunk, host).value.duration
    ensures Paired(p) ==> Paired(o.player)
  {
    var started := p.(isStopping := false);
    match DecodeAudio(chunk, host)
    case Err(e) => PlayOutcome(started, Err(e))
    case Ok(buffer) =>
      var faded :=
        if |started.gains| > 0 then
          started.(gains := started.gains[..|started.gains| - 1] + [Gain(true)],
                   timers := started.timers + [ShiftOldest])
        else started;
      var playing := faded.(sources := faded.sources + [Source(buffer, p.configRate, offset, false)],
                            gains := faded.gains + [Gain(false)]);
      var reported :=
        if chunk.format.Pcm16000? then PcmDuration(|host.atob(chunk.audio).value|)
        else buffer.duration;
      PlayOutcome(playing, Ok(reported))
  }

  /** `stop()`: raises `isStopping`, fades every gain node, and schedules the cleanup;
      the sources themselves stay in place until that timer fires. */
  function Stop(p: Player): (q: Player)
    ensures q.isStopping
    ensures q.sources == p.sources && q.configRate == p.configRate
    ensures |q.gains| == |p.gains| && forall i :: 0 <= i < |q.gains| ==> q.gains[i].fadingOut
    ensures q.timers == p.timers + [Cleanup]
    ensures Paired(p) ==> Paired(q)
  {
    p.(isStopping := true,
       gains := seq(|p.gains|, _ => Gain(true)),
       timers := p.timers + [Cleanup])
  }

  /** The number of sources that have not fired `ended` yet. */
  function LiveCount(sources: seq<Source>): (n: nat)
    ensures n <= |sources|
  {
    if |sources| == 0 then 0
    else LiveCount(sources[..|sources| - 1]) + (if sources[|sources| - 1].ended then 0 else 1)
  }

  /** JavaScript's `Array.prototype.shift` on a list whose removed element is ignored. */
  function Shift<T>(s: seq<T>): (r: seq<T>)
    ensures |s| > 0 ==> r == s[1..]
    ensures |s| == 0 ==> r == []
  {
    if |s| == 0 then [] else s[1..]
  }

  /** What firing a timer leaves behind, and how many times `onPlaybackEnd` ran. */
  datatype TimerOutcome = TimerOutcome(player: Player, endCallbacks: nat)

  /** Fires the earliest pending timer. The crossfade timer drops the first source and the
      first gain node. The cleanup (`cleanupSources`) stops and drops every pair; stopping a
      source that has not ended fires its `ended` event, which calls `onPlaybackEnd` unless
      `isStopping` is raised. */
  function FireTimer(p: Player): (o: TimerOutcome)
    ensures |p.timers| == 0 ==> o == TimerOutcome(p, 0)
    ensures |p.timers| > 0 ==> o.player.timers == p.timers[1..]
    ensures o.player.isStopping == p.isStopping && o.player.configRate == p.configRate
    ensures |p.timers| > 0 && p.timers[0] == ShiftOldest ==>
              && o.player.sources == Shift(p.sources) && o.player.gains == Shift(p.gains)
              && o.endCallbacks == 0
    ensures |p.timers| > 0 && p.timers[0] == Cleanup ==>
              && o.player.sources == [] && o.player.gains == []
              && o.endCallbacks == (if p.isStopping then 0 else LiveCount(p.sources))
    ensures p.isStopping ==> o.endCallbacks == 0
    ensures Paired(p) ==> Paired(o.player)
  {
    if |p.timers| == 0 then TimerOutcome(p, 0)
    else
      var rest := p.timers[1..];
      match p.timers[0]
      case ShiftOldest =>
        TimerOutcome(p.(sources := Shift(p.sources), gains := Shift(p.gains), timers := rest), 0)
      case Cleanup =>
        var fired := if p.isStopping then 0 else LiveCount(p.sources);
        TimerOutcome(p.(sources := [], gains := [], timers := rest), fired)
  }

  /** What a source's `ended` event leaves behind, and whether `onPlaybackEnd` ran. */
  datatype EndOutcome = EndOutcome(player: Player, callback: bool)

  /** The source at position `i` reaches the end of its buffer. Its `onended` handler calls
      `onPlaybackEnd` exactly when `isStopping` is down; a source fires `ended` only once. */
  function SourceEnded(p: Player, i: nat): (o: EndOutcome)
    requires i < |p.sources|
    ensures o.callback <==> !p.isStopping && !p.sources[i].ended
    ensures |o.player.sources| == |p.sources| && o.player.sources[i].ended
    ensures forall j :: 0 <= j < |p.sources| && j != i ==> o.player.sources[j] == p.sources[j]
    ensures o.player.gains == p.gains && o.player.timers == p.timers
    ensures o.player.isStopping == p.isStopping && o.player.configRate == p.configRate
  {
    if p.sources[i].ended then EndOutcome(p, false)
    else EndOutcome(p.(sources := p.sources[i := p.sources[i].(ended := true)]), !p.isStopping)
  }

  /** `setPlaybackRate(rate)`: every current source takes the new rate; the configured
      rate, which later sources start with, is not touched. */
  function SetPlaybackRate(p: Player, rate: real): (q: Player)
    ensures |q.sources| == |p.sources|
    ensures forall i :: 0 <= i < |q.sources| ==> q.sources[i] == p.sources[i].(rate := rate)
    ensures q.configRate == p.configRate
    ensures q.gains == p.gains && q.timers == p.timers && q.isStopping == p.isStopping
  {
    p.(sources := seq(|p.sources|, i requires 0 <= i < |p.sources| => p.sources[i].(rate := rate)))
  }

  /** Every format tag other than `mp3` is decoded the same way. */
  lemma TagIrrelevantOffMp3(chunk: AudioChunk, other: AudioFormat, host: Host)
    requires !chunk.format.Mp3? && !other.Mp3?
    ensures DecodeAudio(chunk, host) == DecodeAudio(chunk.(format := other), host)
  {
  }

  /** A source that has not ended keeps the live count positive. */
  lemma LastLiveCounts(sources: seq<Source>)
    requires |sources| > 0 && !sources[|sources| - 1].ended
    ensures LiveCount(sources) >= 1
  {
  }

  /** As written, `stop()` followed by a successful `play()` within the 100 ms fade lets the
      cleanup timer that `stop()` scheduled tear down the new source as well; and because
      `play()` lowered `isStopping`, the new source's `ended` event calls `onPlaybackEnd`,
      so the controller treats the chunk it has just started as finished. */
  lemma StopThenPlayCutsNewSource(p: Player, chunk: AudioChunk, offset: real, host: Host)
    requires p.timers == []
    requires DecodeAudio(chunk, host).Ok?
    ensures var played := Play(Stop(p), chunk, offset, host);
            var fired := FireTimer(played.player);
            && played.duration.Ok?
            && |played.player.sources| == |p.sources| + 1
            && fired.player.sources == []
            && fired.endCallbacks >= 1
  {
    var played := Play(Stop(p), chunk, offset, host);
    assert played.player.timers[0] == Cleanup;
    LastLiveCounts(played.player.sources);
  }
}
