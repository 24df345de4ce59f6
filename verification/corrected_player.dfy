/** The audio player with its fade timers bound to the sources they were scheduled for.
    Each source carries an id, `stop()` silences the sources it fades, and a timer retires
    exactly the ids it was given. A `play()` that follows `stop()` within the fade is then
    left alone by the earlier cleanup. Decoding and the reported duration are those of
    `AudioPlayer`. */
module CorrectedPlayer {
  import opened Results
  import opened PodcastTypes
  import AudioPlayer

  /** A source together with its gain node. */
  datatype Voice = Voice(
    id: nat,
    buffer: AudioPlayer.AudioBuffer,
    rate: real,
    offset: real,
    fadingOut: bool,
    silenced: bool,
    ended: bool)

  /** A pending fade timer and the sources it removes when it fires. */
  datatype Timer = Retire(ids: set<nat>)

  datatype Player = Player(voices: seq<Voice>, configRate: real, nextId: nat, timers: seq<Timer>)

  datatype PlayOutcome = PlayOutcome(player: Player, duration: Result<real, AudioPlayer.PlayError>)

  /** Ids handed out so far are below `nextId`, whether they label a voice or sit in a
      pending timer. */
  predicate IdsIssued(p: Player) {
    && (forall i :: 0 <= i < |p.voices| ==> p.voices[i].id < p.nextId)
    && (forall k :: 0 <= k < |p.timers| ==> forall id :: id in p.timers[k].ids ==> id < p.nextId)
  }

  function NewPlayer(rate: real): (p: Player)
    ensures IdsIssued(p) && p.voices == [] && p.timers == []
  {
    Player([], rate, 0, [])
  }

  function VoiceIds(vs: seq<Voice>): (ids: set<nat>)
    ensures forall i :: 0 <= i < |vs| ==> vs[i].id in ids
    ensures forall id :: id in ids ==> exists i :: 0 <= i < |vs| && vs[i].id == id
  {
    set i | 0 <= i < |vs| :: vs[i].id
  }

  /** `play()`: decode, fade out the newest voice and schedule the retirement of that very
      voice, then start a new voice under an unused id. */
  function Play(p: Player, chunk: AudioChunk, offset: real, host: AudioPlayer.Host): (o: PlayOutcome)
    ensures o.duration.Ok? <==> AudioPlayer.DecodeAudio(chunk, host).Ok?
    ensures o.duration.Err? ==> o.player == p
    ensures o.duration.Ok? ==>
              && |o.player.voices| == |p.voices| + 1
              && o.player.voices[|p.voices|]
                   == Voice(p.nextId, AudioPlayer.DecodeAudio(chunk, host).value, p.configRate, offset, false, false, false)
              && (forall i :: 0 <= i < |p.voices| - 1 ==> o.player.voices[i] == p.voices[i])
              && (|p.voices| > 0 ==> o.player.voices[|p.voices| - 1] == p.voices[|p.voices| - 1].(fadingOut := true))
              && o.player.timers == p.timers + (if |p.voices| > 0 then [Retire({p.voices[|p.voices| - 1].id})] else [])
    ensures o.duration.Ok? && chunk.format.Pcm16000? ==>
              o.duration.value == AudioPlayer.PcmDuration(|host.atob(chunk.audio).value|)
    ensures o.duration.Ok? && !chunk.format.Pcm16000? ==>
              o.duration.value == AudioPlayer.DecodeAudio(chunk, host).value.duration
    ensures o.player.configRate == p.configRate
    ensures IdsIssued(p) ==> IdsIssued(o.player)
  {
    match AudioPlayer.DecodeAudio(chunk, host)
    case Err(e) => PlayOutcome(p, Err(e))
    case Ok(buffer) =>
      var faded :=
        if |p.voices| > 0 then
          var last := p.voices[|p.voices| - 1];
          p.(voices := p.voices[..|p.voices| - 1] + [last.(fadingOut := true)],
             timers := p.timers + [Retire({last.id})])
        else p;
      var voice := Voice(p.nextId, buffer, p.configRate, offset, false, false, false);
      var reported :=
        if chunk.format.Pcm16000? then AudioPlayer.PcmDuration(|host.atob(chunk.audio).value|)
        else buffer.duration;
      PlayOutcome(faded.(voices := faded.voices + [voice], nextId := p.nextId + 1), Ok(reported))
  }

  /** `stop()`: every current voice fades out and is silenced, so its `ended` event no
      longer reports the end of playback, and exactly these voices are scheduled for
      removal. */
  function Stop(p: Player): (q: Player)
    ensures |q.voices| == |p.voices|
    ensures forall i :: 0 <= i < |q.voices| ==> q.voices[i] == p.voices[i].(fadingOut := true, silenced := true)
    ensures q.timers == p.timers + [Retire(VoiceIds(p.voices))]
    ensures q.nextId == p.nextId && q.configRate == p.configRate
    ensures IdsIssued(p) ==> IdsIssued(q)
  {
    var silenced := seq(|p.voices|, i requires 0 <= i < |p.voices| => p.voices[i].(fadingOut := true, silenced := true));
    assert forall i :: 0 <= i < |p.voices| ==> silenced[i].id == p.voices[i].id;
    p.(voices := silenced, timers := p.timers + [Retire(VoiceIds(p.voices))])
  }

  /** The voices whose ids are not in `ids`, in their order. */
  function Without(vs: seq<Voice>, ids: set<nat>): (kept: seq<Voice>)
    ensures |kept| <= |vs|
    ensures forall v :: v in kept <==> v in vs && v.id !in ids
  {
    if |vs| == 0 then []
    else
      var rest := Without(vs[..|vs| - 1], ids);
      assert forall v :: v in vs <==> v in vs[..|vs| - 1] || v == vs[|vs| - 1];
      if vs[|vs| - 1].id in ids then rest else rest + [vs[|vs| - 1]]
  }

  /** Fires the earliest timer: it removes exactly the voices it was scheduled for. */
  function FireTimer(p: Player): (q: Player)
    ensures |p.timers| == 0 ==> q == p
    ensures |p.timers| > 0 ==> q.timers == p.timers[1..]
    ensures |p.timers| > 0 ==> forall v :: v in q.voices <==> v in p.voices && v.id !in p.timers[0].ids
    ensures q.nextId == p.nextId && q.configRate == p.configRate
    ensures IdsIssued(p) ==> IdsIssued(q)
  {
    if |p.timers| == 0 then p
    else
      var q := p.(voices := Without(p.voices, p.timers[0].ids), timers := p.timers[1..]);
      assert forall k :: 0 <= k < |q.timers| ==> q.timers[k] == p.timers[k + 1];
      q
  }

  datatype EndOutcome = EndOutcome(player: Player, callback: bool)

  /** The voice at `i` reaches its end; playback end is reported unless `stop()` silenced it. */
  function SourceEnded(p: Player, i: nat): (o: EndOutcome)
    requires i < |p.voices|
    ensures o.callback <==> !p.voices[i].silenced && !p.voices[i].ended
    ensures |o.player.voices| == |p.voices| && o.player.voices[i].ended
    ensures forall j :: 0 <= j < |p.voices| && j != i ==> o.player.voices[j] == p.voices[j]
  {
    var v := p.voices[i];
    if v.ended then EndOutcome(p, false)
    else EndOutcome(p.(voices := p.voices[i := v.(ended := true)]), !v.silenced)
  }

  /** A timer pending when a voice starts never removes that voice. */
  lemma PendingTimersSpareNewVoice(p: Player, chunk: AudioChunk, offset: real, host: AudioPlayer.Host)
    requires IdsIssued(p)
    requires AudioPlayer.DecodeAudio(chunk, host).Ok?
    ensures var o := Play(p, chunk, offset, host);
            forall k :: 0 <= k < |p.timers| ==> o.player.voices[|p.voices|].id !in o.player.timers[k].ids
  {
    var o := Play(p, chunk, offset, host);
    forall k | 0 <= k < |p.timers|
      ensures o.player.voices[|p.voices|].id !in o.player.timers[k].ids
    {
      assert o.player.timers[k] == p.timers[k];
    }
  }

  /** Retiring every id present leaves no voice. */
  lemma {:induction false} WithoutAllRetired(vs: seq<Voice>, ids: set<nat>)
    requires forall i :: 0 <= i < |vs| ==> vs[i].id in ids
    ensures Without(vs, ids) == []
  {
    if |vs| > 0 {
      WithoutAllRetired(vs[..|vs| - 1], ids);
    }
  }

  /** With the timers bound to their voices, `stop()` followed by a successful `play()`
      within the fade removes only the stopped voices: the new voice survives the cleanup,
      unsilenced, and its own end still reports the end of playback. */
  lemma StopThenPlayKeepsNewVoice(p: Player, chunk: AudioChunk, offset: real, host: AudioPlayer.Host)
    requires IdsIssued(p) && p.timers == []
    requires AudioPlayer.DecodeAudio(chunk, host).Ok?
    ensures var played := Play(Stop(p), chunk, offset, host).player;
            var cleaned := FireTimer(played);
            && cleaned.voices == [played.voices[|p.voices|]]
            && !cleaned.voices[0].silenced
            && SourceEnded(cleaned, 0).callback
  {
    var stopped := Stop(p);
    var played := Play(stopped, chunk, offset, host).player;
    var n := |p.voices|;
    var started := played.voices[n];
    var ids := VoiceIds(p.voices);
    assert played.timers[0] == Retire(ids);
    assert started.id == p.nextId && started.id !in ids;
    var before := played.voices[..n];
    forall i | 0 <= i < |before|
      ensures before[i].id in ids
    {
      assert before[i].id == p.voices[i].id;
    }
    WithoutAllRetired(before, ids);
    assert played.voices == before + [started];
    assert Without(played.voices, ids) == [started];
  }
}
