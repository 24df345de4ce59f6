/** Runs of the controller over sequences of events, and the properties that relate
    several of its transitions: how `accumulatedTime` advances, what a pause followed by a
    resume restores, and which chunks an interruption rules out. */
module ControllerTrace {
  import opened Results
  import opened PodcastTypes
  import opened AudioControllerHook

  /** Everything that can happen to the hook: a chunk from the socket, the player becoming
      ready, a tick of the 900 ms poll, the player's end callback, the play/pause button,
      an interruption from the socket, the rate selector, and a tick of the 50 ms
      position timer. Events that await `play` carry what it settled with. */
  datatype Event =
    | Arrive(chunk: AudioChunk)
    | Ready
    | Poll(now: real, reply: Reply)
    | Ended(now: real, reply: Reply)
    | Toggle(now: real, reply: Reply)
    | Interruption
    | Rate(rate: real)
    | PositionTick(now: real)

  /** The rate selector only offers the listed rates. */
  predicate Admissible(e: Event) {
    e.Rate? ==> e.rate in PlaybackRates
  }

  predicate AllAdmissible(es: seq<Event>) {
    forall k :: 0 <= k < |es| ==> Admissible(es[k])
  }

  function Apply(c: Controller, e: Event): (s: Step)
    requires Valid(c) && Admissible(e)
    ensures Valid(s.next)
    ensures s.next.interactive == c.interactive
    ensures c.played <= s.next.played
    ensures c.interactive ==> s.next.played == c.played
    ensures PrefixKept(c.chunks, s.next.chunks)
  {
    if e.Poll? || e.Ended? || e.Toggle? then ApplyPlayback(c, e) else ApplyOther(c, e)
  }

  /** The events that may start a chunk. The player's end callback can only come while the
      current player holds a started chunk; at any other time the event does not occur. */
  function ApplyPlayback(c: Controller, e: Event): (s: Step)
    requires Valid(c) && (e.Poll? || e.Ended? || e.Toggle?)
    ensures Valid(s.next) && Keeps(c, s.next)
  {
    match e
    case Poll(now, reply) => CheckNewMessages(c, now, reply)
    case Ended(now, reply) => if c.awaitingEnd then PlaybackEnded(c, now, reply) else Step(c, [])
    case Toggle(now, reply) => TogglePlayback(c, now, reply)
  }

  /** The events that never start a chunk. */
  function ApplyOther(c: Controller, e: Event): (s: Step)
    requires Valid(c) && Admissible(e) && !(e.Poll? || e.Ended? || e.Toggle?)
    ensures Valid(s.next)
    ensures s.next.interactive == c.interactive
    ensures s.next.played == c.played
    ensures PrefixKept(c.chunks, s.next.chunks)
    ensures s.commands == [] || s.commands == [StopAudio] || (e.Rate? && s.commands == [SetRate(e.rate)])
  {
    match e
    case Arrive(chunk) => ChunkArrived(c, chunk)
    case Ready => Step(PlayerReady(c), [])
    case Interruption => Interrupt(c)
    case Rate(rate) => ChangeRate(c, rate)
    case PositionTick(now) => Step(Tick(c, now), [])
  }

  /** Applies the events in order and collects every command issued to the player. */
  function Run(c: Controller, es: seq<Event>): (s: Step)
    requires Valid(c) && AllAdmissible(es)
    ensures Valid(s.next)
    ensures s.next.interactive == c.interactive
    ensures c.played <= s.next.played
    ensures c.interactive ==> s.next.played == c.played
    ensures PrefixKept(c.chunks, s.next.chunks)
    decreases |es|
  {
    if |es| == 0 then Step(c, [])
    else
      var first := Apply(c, es[0]);
      var rest := Run(first.next, es[1..]);
      Step(rest.next, first.commands + rest.commands)
  }

  /** The hook's measure is additive over concatenation of chunk lists. */
  lemma {:induction false} EncodedTotalConcat(a: seq<AudioChunk>, b: seq<AudioChunk>)
    ensures EncodedTotal(a + b) == EncodedTotal(a) + EncodedTotal(b)
    decreases |b|
  {
    if |b| == 0 {
      assert a + b == a;
    } else {
      assert (a + b)[..|a + b| - 1] == a + b[..|b| - 1];
      assert (a + b)[|a + b| - 1] == b[|b| - 1];
      EncodedTotalConcat(a, b[..|b| - 1]);
    }
  }

  /** When `accumulatedTime` holds the hook's measure of the chunks before the current one,
      starting the next chunk adds exactly the current chunk's measure. */
  lemma PlayNextAdvancesAccumulated(c: Controller, now: real, reply: Reply)
    requires Valid(c) && c.ready && reply.Ok?
    requires 0 <= c.index < |c.chunks| - 1
    requires c.accumulated == EncodedTotal(c.chunks[..c.index])
    ensures PlayNextChunk(c, now, reply).next.accumulated
              == c.accumulated + EncodedSeconds(c.chunks[c.index])
  {
    assert c.chunks[..c.index + 1][..c.index] == c.chunks[..c.index];
  }

  /** While a chunk plays, the displayed total is the accumulated time plus the hook's
      measure of the current chunk and of every chunk after it. */
  lemma TotalSplitsAtCurrentChunk(c: Controller, now: real, reply: Reply)
    requires Valid(c) && c.ready && reply.Ok? && c.index < |c.chunks| - 1
    ensures var d := PlayNextChunk(c, now, reply).next;
            d.totalDuration == d.accumulated + EncodedTotal(c.chunks[d.index..])
  {
    var d := PlayNextChunk(c, now, reply).next;
    assert c.chunks == c.chunks[..d.index] + c.chunks[d.index..];
    EncodedTotalConcat(c.chunks[..d.index], c.chunks[d.index..]);
  }

  /** Pause then resume continues the chunk where it was paused, provided the accumulated
      time was the sum of the known durations of the earlier chunks: the player is asked
      to play the same chunk from the elapsed offset, and the back-dated anchor makes the
      elapsed time measured at the resume equal to that offset. */
  lemma PauseResumeKeepsOffset(c: Controller, paused: real, resumed: real, reply: Reply)
    requires Valid(c) && c.ready && c.isPlaying && c.startTime.Some?
    requires 0 <= c.index < |c.chunks|
    requires c.accumulated == KnownTotal(c.chunks[..c.index])
    requires 0.0 <= Elapsed(paused, c.startTime.value, c.rate) < KnownDuration(c.chunks[c.index])
    requires reply.Ok?
    ensures var p := TogglePlayback(c, paused, reply).next;
            var r := TogglePlayback(p, resumed, reply);
            && r.commands == [PlayChunk(c.index, Elapsed(paused, c.startTime.value, c.rate))]
            && r.next.startTime.Some?
            && Elapsed(resumed, r.next.startTime.value, c.rate) == Elapsed(paused, c.startTime.value, c.rate)
  {
    var e := Elapsed(paused, c.startTime.value, c.rate);
    var p := TogglePlayback(c, paused, reply).next;
    assert p.accumulated == c.accumulated + e;
    assert ResumeOffset(p.(manuallyPaused := false)) == e;
  }

  /** A chunk that arrived without a duration counts as 0 long, so resuming it always
      moves on to the next chunk instead of continuing it. */
  lemma ResumeWithoutDurationAdvances(c: Controller, now: real, reply: Reply)
    requires Valid(c) && c.ready && 0 <= c.index < |c.chunks|
    requires c.chunks[c.index].duration.None?
    ensures Resume(c, now, reply) == PlayNextChunk(c, now, reply)
  {
  }

  /** No chunk of the list carries a duration. */
  predicate NoDurations(chunks: seq<AudioChunk>) {
    forall i :: 0 <= i < |chunks| ==> chunks[i].duration.None?
  }

  /** Every chunk that arrives in the run comes without a duration. */
  predicate ArrivalsWithoutDuration(es: seq<Event>) {
    forall k :: 0 <= k < |es| ==> (es[k].Arrive? ==> es[k].chunk.duration.None?)
  }

  /** The write-back in `resumePlayback` only replaces a duration that is already known,
      because an absent one counts as 0 and sends the resume to `playNextChunk`. So no
      event gives a duration to a chunk that arrived without one. */
  lemma StepKeepsNoDurations(c: Controller, e: Event)
    requires Valid(c) && Admissible(e) && NoDurations(c.chunks)
    requires e.Arrive? ==> e.chunk.duration.None?
    ensures NoDurations(Apply(c, e).next.chunks)
  {
    if e.Toggle? && !c.isPlaying && c.ready && 0 <= c.index < |c.chunks| {
      ResumeWithoutDurationAdvances(c.(manuallyPaused := false), e.now, e.reply);
    }
  }

  /** Chunks that arrive without durations keep having none over any run: the resume's
      `duration` is then 0 for every chunk, whatever the player reports. */
  lemma {:induction false} RunKeepsNoDurations(c: Controller, es: seq<Event>)
    requires Valid(c) && AllAdmissible(es) && NoDurations(c.chunks)
    requires ArrivalsWithoutDuration(es)
    ensures NoDurations(Run(c, es).next.chunks)
    decreases |es|
  {
    if |es| > 0 {
      StepKeepsNoDurations(c, es[0]);
      RunKeepsNoDurations(Apply(c, es[0]).next, es[1..]);
    }
  }

  /** The chunks with index below `cut` are out of reach: the index is at least `cut - 1`,
      or it is the sentinel with no clock anchor, which only a poll can resolve. */
  predicate BeyondCut(c: Controller, cut: nat) {
    && cut <= |c.chunks|
    && (c.index >= cut - 1 || (c.index == AfterInterruption && c.startTime.None?))
  }

  predicate PlaysFrom(commands: seq<Command>, cut: nat) {
    forall k :: 0 <= k < |commands| && commands[k].PlayChunk? ==> commands[k].index >= cut
  }

  /** One event other than the play/pause button keeps the cut and plays nothing below it. */
  lemma StepKeepsCut(c: Controller, e: Event, cut: nat)
    requires Valid(c) && Admissible(e) && !e.Toggle?
    requires BeyondCut(c, cut)
    ensures BeyondCut(Apply(c, e).next, cut)
    ensures PlaysFrom(Apply(c, e).commands, cut)
  {
    match e
    case Poll(now, reply) =>
      var s := CheckNewMessages(c, now, reply);
      if |s.commands| > 0 {
        assert ResolvedIndex(c) >= cut - 1;
      }
    case Ended(now, reply) =>
      if c.awaitingEnd {
        var s := PlaybackEnded(c, now, reply);
        assert |s.commands| > 0 ==> s.commands == [PlayChunk(c.index + 1, 0.0)];
      }
    case Arrive(chunk) =>
      var s := ChunkArrived(c, chunk);
      assert s.next.index == c.index && s.next.startTime == c.startTime;
    case Interruption =>
      assert Interrupt(c).commands == [StopAudio];
    case Rate(rate) =>
      assert ChangeRate(c, rate).commands == [SetRate(rate)];
    case Ready =>
    case PositionTick(now) =>
  }

  /** Without the play/pause button, a run that starts beyond the cut never plays a chunk
      below it. */
  lemma {:induction false} RunKeepsCut(c: Controller, es: seq<Event>, cut: nat)
    requires Valid(c) && AllAdmissible(es)
    requires forall k :: 0 <= k < |es| ==> !es[k].Toggle?
    requires BeyondCut(c, cut)
    ensures BeyondCut(Run(c, es).next, cut)
    ensures PlaysFrom(Run(c, es).commands, cut)
    decreases |es|
  {
    if |es| > 0 {
      var first := Apply(c, es[0]);
      StepKeepsCut(c, es[0], cut);
      RunKeepsCut(first.next, es[1..], cut);
      var rest := Run(first.next, es[1..]);
      assert Run(c, es).commands == first.commands + rest.commands;
    }
  }

  /** After an interruption, no chunk that had arrived by then is ever played again by the
      events an interactive session can produce (its controls have no play/pause button). */
  lemma InterruptionNeverReplays(c: Controller, es: seq<Event>)
    requires Valid(c) && AllAdmissible(es)
    requires forall k :: 0 <= k < |es| ==> !es[k].Toggle?
    ensures PlaysFrom(Run(Interrupt(c).next, es).commands, |c.chunks|)
    ensures PrefixKept(c.chunks, Run(Interrupt(c).next, es).next.chunks)
  {
    RunKeepsCut(Interrupt(c).next, es, |c.chunks|);
  }

  /** The poll that resolves the sentinel skips every chunk present at that poll, including
      those that arrived after the interruption itself. */
  lemma ResolvingPollSkipsArrivals(c: Controller, now: real, reply: Reply, es: seq<Event>)
    requires Valid(c) && AllAdmissible(es)
    requires forall k :: 0 <= k < |es| ==> !es[k].Toggle?
    requires c.index == AfterInterruption && c.ready && !c.isPlaying && !c.manuallyPaused
    ensures CheckNewMessages(c, now, reply).commands == []
    ensures PlaysFrom(Run(CheckNewMessages(c, now, reply).next, es).commands, |c.chunks|)
  {
    RunKeepsCut(CheckNewMessages(c, now, reply).next, es, |c.chunks|);
  }

  /** The played set receives the chunk that has just started, not the one that finished:
      the first poll of a non-interactive session marks the first chunk played while it is
      still sounding. */
  lemma StartedChunkIsMarkedPlayed(a: AudioChunk, now: real, d: real)
    requires a.id != ""
    ensures var c := Append(PlayerReady(Initial(false)), a);
            var s := CheckNewMessages(c, now, Ok(d));
            && s.commands == [PlayChunk(0, 0.0)]
            && s.next.isPlaying && s.next.played == {a.id}
  {
  }

  /** No command in the list asks the player to play. */
  predicate PlaysNothing(commands: seq<Command>) {
    forall k :: 0 <= k < |commands| ==> !commands[k].PlayChunk?
  }

  /** The hook believes a chunk is playing, but its player will never report an end. */
  predicate Stalled(c: Controller) {
    c.isPlaying && !c.awaitingEnd
  }

  /** Once stalled, an event other than the play/pause button or an interruption keeps the
      hook stalled and plays nothing: the poll returns at its `isPlaying` guard, no end
      can be reported, and a further arrival only stops the player again. */
  lemma StepStaysStalled(c: Controller, e: Event)
    requires Valid(c) && Admissible(e) && !e.Toggle? && !e.Interruption?
    requires Stalled(c)
    ensures Stalled(Apply(c, e).next)
    ensures PlaysNothing(Apply(c, e).commands)
  {
    match e
    case Poll(now, reply) =>
      assert CheckNewMessages(c, now, reply) == Step(c, []);
    case _ =>
  }

  lemma {:induction false} RunStaysStalled(c: Controller, es: seq<Event>)
    requires Valid(c) && AllAdmissible(es)
    requires forall k :: 0 <= k < |es| ==> !es[k].Toggle? && !es[k].Interruption?
    requires Stalled(c)
    ensures Stalled(Run(c, es).next)
    ensures PlaysNothing(Run(c, es).commands)
    decreases |es|
  {
    if |es| > 0 {
      var first := Apply(c, es[0]);
      StepStaysStalled(c, es[0]);
      RunStaysStalled(first.next, es[1..]);
      var rest := Run(first.next, es[1..]);
      assert Run(c, es).commands == first.commands + rest.commands;
    }
  }

  /** A chunk that arrives while another plays stops it for good: the arrival stops the
      player, and from then on no run without the play/pause button or an interruption
      plays anything, while the hook still shows itself as playing. */
  lemma ArrivalStallsPlayback(c: Controller, chunk: AudioChunk, es: seq<Event>)
    requires Valid(c) && c.isPlaying && AllAdmissible(es)
    requires forall k :: 0 <= k < |es| ==> !es[k].Toggle? && !es[k].Interruption?
    ensures Apply(c, Arrive(chunk)).commands == [StopAudio]
    ensures var r := Run(Apply(c, Arrive(chunk)).next, es);
            r.next.isPlaying && PlaysNothing(r.commands)
  {
    RunStaysStalled(Apply(c, Arrive(chunk)).next, es);
  }

  /** A chunk of `n` base64 characters whose reported duration is `seconds`. */
  function TestChunk(id: string, n: nat, seconds: real): (a: AudioChunk)
    ensures |a.audio| == n && a.duration == Some(seconds)
  {
    AudioChunk(id, seq(n, i => 'A'), "", Pcm16000, Some(seconds))
  }

  /** `playNextChunk` measures the chunks before the current one in base64 characters over
      16000, while `resumePlayback` subtracts their durations in seconds. Two chunks of
      16000 characters hold 12000 bytes, 0.375 s, each. Pausing 100 ms into the second one
      and resuming leaves an offset of 0.725 s, past that chunk's end, so the resume plays
      nothing although 0.275 s of it were left. */
  lemma EncodedMeasureSkipsPausedChunk(now: real, reply: Reply)
    requires reply == Ok(0.375)
    ensures var a, b := TestChunk("a", 16000, 0.375), TestChunk("b", 16000, 0.375);
            var c := Append(Append(PlayerReady(Initial(false)), a), b).(index := 0);
            var started := PlayNextChunk(c, now, reply);
            var paused := TogglePlayback(started.next, now + 100.0, reply);
            var resumed := TogglePlayback(paused.next, now + 200.0, reply);
            && started.commands == [PlayChunk(1, 0.0)]
            && Elapsed(now + 100.0, now, 1.0) < KnownDuration(b)
            && paused.commands == [StopAudio]
            && resumed.commands == []
            && !resumed.next.isPlaying
  {
    var a, b := TestChunk("a", 16000, 0.375), TestChunk("b", 16000, 0.375);
    var c := Append(Append(PlayerReady(Initial(false)), a), b).(index := 0);
    assert c.chunks == [a, b];
    assert c.chunks[..1] == [a];
    assert EncodedTotal([a]) == 1.0 by {
      assert [a][..0] == [];
    }
    var started := PlayNextChunk(c, now, reply);
    assert started.next.accumulated == 1.0;
    var paused := TogglePlayback(started.next, now + 100.0, reply);
    assert paused.next.accumulated == 1.1;
    assert paused.next.chunks[..1] == [a];
    assert KnownTotal([a]) == 0.375 by {
      assert [a][..0] == [];
    }
    assert ResumeOffset(paused.next.(manuallyPaused := false)) == 0.725;
  }
}
