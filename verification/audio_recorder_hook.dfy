/** The `useAudioRecorder` hook: the worklet's frames are buffered, and every 250 ms they
    are concatenated, classified by energy, encoded as 16-bit PCM and sent, whatever the
    classification. Microphone access, the worklet and the interval timer are left to the
    environment: a worklet message and a timer tick are the two events of `Recorder`. The
    base64 step (`btoa`) is not opened up; `EncodeFrame` yields the bytes handed to it. */
module AudioRecorderHook {
  import opened Results
  import opened Pcm
  import opened JsNumbers

  const ChunkDurationMs: nat := 250
  const VoiceActivityThreshold: real := 0.01

  /** `Math.max(-1, Math.min(1, x))`. */
  function Clamp(x: real): (y: real)
    ensures -1.0 <= y <= 1.0
    ensures -1.0 <= x <= 1.0 ==> y == x
    ensures x > 1.0 ==> y == 1.0
    ensures x < -1.0 ==> y == -1.0
  {
    if x > 1.0 then 1.0 else if x < -1.0 then -1.0 else x
  }

  /** The ECMAScript ToInt16 conversion of storing into an `Int16Array`: truncate, then
      wrap modulo 2^16 into [-32768, 32767]. */
  function ToInt16(x: real): (v: Int16)
    ensures -32768 <= Trunc(x) < 32768 ==> v == Trunc(x)
  {
    var m := Trunc(x) % 65536;
    if m >= 32768 then m - 65536 else m
  }

  /** One float sample as stored into the int16 buffer: clamped to [-1, 1], scaled by
      0x8000 when negative and by 0x7FFF otherwise, then converted. The scaled value never
      leaves the int16 range, so the wrap-around of the conversion never applies. */
  function ScaleSample(x: real): (v: Int16)
    ensures 0.0 <= x <= 1.0 ==> v as real <= x * 32767.0 < v as real + 1.0
    ensures -1.0 <= x < 0.0 ==> v as real - 1.0 < x * 32768.0 <= v as real
    ensures x >= 1.0 ==> v == 32767
    ensures x <= -1.0 ==> v == -32768
    ensures v > 0 ==> x > 0.0
    ensures v < 0 ==> x < 0.0
  {
    var s := Clamp(x);
    var scaled := if s < 0.0 then s * 32768.0 else s * 32767.0;
    assert -32768.0 <= scaled <= 32767.0;
    ToInt16(scaled)
  }

  /** Encoding preserves the order of samples. */
  lemma ScaleMonotone(x: real, y: real)
    requires x <= y
    ensures ScaleSample(x) <= ScaleSample(y)
  {
    var sx, sy := Clamp(x), Clamp(y);
    assert sx <= sy;
    var ax := if sx < 0.0 then sx * 32768.0 else sx * 32767.0;
    var ay := if sy < 0.0 then sy * 32768.0 else sy * 32767.0;
    if sx < 0.0 && sy >= 0.0 {
      assert ax < 0.0 <= ay;
    } else if sx < 0.0 {
      assert sx * 32768.0 <= sy * 32768.0;
    } else {
      assert sx * 32767.0 <= sy * 32767.0;
    }
    TruncMonotone(ax, ay);
  }

  /** The int16 values of a frame, one per sample. */
  function ScaleFrame(samples: seq<real>): (vs: seq<Int16>)
    ensures |vs| == |samples|
    ensures forall i :: 0 <= i < |vs| ==> vs[i] == ScaleSample(samples[i])
  {
    seq(|samples|, i requires 0 <= i < |samples| => ScaleSample(samples[i]))
  }

  /** `convertToBase64PCM` up to `btoa`: the bytes of the int16 buffer, two per sample,
      low byte first. */
  function EncodeFrame(samples: seq<real>): (bytes: seq<Byte>)
    ensures |bytes| == 2 * |samples|
    ensures forall i :: 0 <= i < |samples| ==> bytes[2 * i..2 * i + 2] == Int16LEBytes(ScaleSample(samples[i]))
  {
    PackInt16LE(ScaleFrame(samples))
  }

  /** The player's int16 view of an encoded frame gives back the scaled samples. */
  lemma EncodedFrameReadsBack(samples: seq<real>)
    ensures Int16View(EncodeFrame(samples)) == Some(ScaleFrame(samples))
  {
    ViewOfPacked(ScaleFrame(samples));
  }

  function SumOfSquares(xs: seq<real>): (r: real)
    ensures r >= 0.0
  {
    if |xs| == 0 then 0.0 else SumOfSquares(xs[..|xs| - 1]) + xs[|xs| - 1] * xs[|xs| - 1]
  }

  /** `detectVoiceActivity` without the square root: the mean square exceeds the square of
      the threshold. An empty frame's mean is NaN, and NaN exceeds nothing. */
  function DetectVoiceActivity(xs: seq<real>): (active: bool)
    ensures active <==> |xs| > 0 && SumOfSquares(xs) > 0.0001 * |xs| as real
  {
    |xs| > 0 && SumOfSquares(xs) / |xs| as real > VoiceActivityThreshold * VoiceActivityThreshold
  }

  /** Comparing squares is comparing the root mean square with the 0.01 threshold. */
  lemma VoiceActivityIsRmsAboveThreshold(xs: seq<real>, rms: real)
    requires |xs| > 0 && rms >= 0.0
    requires rms * rms == SumOfSquares(xs) / |xs| as real
    ensures DetectVoiceActivity(xs) <==> rms > VoiceActivityThreshold
  {
    var ms := SumOfSquares(xs) / |xs| as real;
    if rms > 0.01 {
      assert rms * rms > 0.01 * rms;
      assert 0.01 * rms > 0.0001;
    } else {
      assert rms * rms <= 0.01 * rms;
      assert 0.01 * rms <= 0.0001;
    }
  }

  /** The frames laid end to end, in arrival order. */
  function Flatten(frames: seq<seq<real>>): seq<real> {
    if |frames| == 0 then [] else Flatten(frames[..|frames| - 1]) + frames[|frames| - 1]
  }

  /** The `reduce` that sizes the concatenation buffer. */
  function TotalLength(frames: seq<seq<real>>): (n: nat)
    ensures n == |Flatten(frames)|
  {
    if |frames| == 0 then 0 else TotalLength(frames[..|frames| - 1]) + |frames[|frames| - 1]|
  }

  lemma {:induction false} FlattenConcat(a: seq<seq<real>>, b: seq<seq<real>>)
    ensures Flatten(a + b) == Flatten(a) + Flatten(b)
    decreases |b|
  {
    if |b| == 0 {
      assert a + b == a;
    } else {
      var init, last := b[..|b| - 1], b[|b| - 1];
      assert (a + b)[..|a + b| - 1] == a + init;
      assert (a + b)[|a + b| - 1] == last;
      assert Flatten(a + b) == Flatten(a + init) + last;
      assert Flatten(b) == Flatten(init) + last;
      FlattenConcat(a, init);
    }
  }

  /** Frame `k` occupies the positions right after the frames that arrived before it. */
  lemma FrameInPlace(frames: seq<seq<real>>, k: nat, j: nat)
    requires k < |frames| && j < |frames[k]|
    ensures TotalLength(frames[..k]) + j < TotalLength(frames)
    ensures Flatten(frames)[TotalLength(frames[..k]) + j] == frames[k][j]
  {
    var before, after := frames[..k], frames[k + 1..];
    var upTo := before + [frames[k]];
    assert frames == upTo + after;
    assert upTo[..|upTo| - 1] == before;
    assert Flatten(upTo) == Flatten(before) + frames[k];
    FlattenConcat(upTo, after);
    var flat := Flatten(frames);
    assert flat == Flatten(before) + frames[k] + Flatten(after);
    assert flat[|Flatten(before)| + j] == frames[k][j];
  }

  /** The concatenation loop of `processChunks`: a zero-filled buffer of the total length,
      into which each frame is copied at the running offset. */
  method ConcatenateFrames(frames: seq<seq<real>>) returns (out: seq<real>)
    ensures out == Flatten(frames)
    ensures |out| == TotalLength(frames)
  {
    var total := 0;
    var k := 0;
    while k < |frames|
      invariant 0 <= k <= |frames|
      invariant total == TotalLength(frames[..k])
    {
      assert frames[..k + 1][..k] == frames[..k];
      total := total + |frames[k]|;
      k := k + 1;
    }
    assert frames[..k] == frames;
    out := seq(total, _ => 0.0);
    var offset := 0;
    k := 0;
    while k < |frames|
      invariant 0 <= k <= |frames|
      invariant |out| == total
      invariant offset == TotalLength(frames[..k])
      invariant offset <= total
      invariant out[..offset] == Flatten(frames[..k])
    {
      assert frames[..k + 1][..k] == frames[..k];
      assert frames == frames[..k + 1] + frames[k + 1..];
      FlattenConcat(frames[..k + 1], frames[k + 1..]);
      out := out[..offset] + frames[k] + out[offset + |frames[k]|..];
      offset := offset + |frames[k]|;
      k := k + 1;
    }
    assert frames[..k] == frames;
  }

  /** The hook's buffered frames and its reported state. */
  datatype Recorder = Recorder(frames: seq<seq<real>>, isActive: bool, isInitialized: bool)

  function NewRecorder(): (r: Recorder)
    ensures |r.frames| == 0 && !r.isActive && !r.isInitialized
  {
    Recorder([], false, false)
  }

  /** `initializeRecording` has acquired the microphone and started the interval. */
  function Initialized(r: Recorder): (q: Recorder)
    ensures q.isInitialized && q.frames == r.frames && q.isActive == r.isActive
  {
    r.(isInitialized := true)
  }

  /** The worklet port's message handler: a message carrying audio data is buffered. */
  function OnWorkletMessage(r: Recorder, audioData: Option<seq<real>>): (q: Recorder)
    ensures audioData.None? ==> q == r
    ensures audioData.Some? ==> q.frames == r.frames + [audioData.value]
    ensures q.isActive == r.isActive && q.isInitialized == r.isInitialized
  {
    match audioData
    case None => r
    case Some(frame) => r.(frames := r.frames + [frame])
  }

  /** The state after a `processChunks` tick and the bytes it passed to `onAudioData`. */
  datatype Flush = Flush(recorder: Recorder, sent: Option<seq<Byte>>)

  /** `processChunks`. With nothing buffered it does nothing. Otherwise it concatenates
      the frames, sets `isActive` from the energy test, sends the encoded concatenation
      whatever the test said, and empties the buffer. */
  function ProcessChunks(r: Recorder): (f: Flush)
    ensures |r.frames| == 0 ==> f == Flush(r, None)
    ensures |r.frames| > 0 ==>
              && f.sent == Some(EncodeFrame(Flatten(r.frames)))
              && |f.sent.value| == 2 * TotalLength(r.frames)
              && f.recorder.frames == []
              && (f.recorder.isActive <==> DetectVoiceActivity(Flatten(r.frames)))
              && f.recorder.isInitialized == r.isInitialized
  {
    if |r.frames| == 0 then Flush(r, None)
    else
      var concatenated := Flatten(r.frames);
      Flush(r.(isActive := DetectVoiceActivity(concatenated), frames := []),
            Some(EncodeFrame(concatenated)))
  }

  /** What the hook returns to its caller. */
  datatype Status = Status(isActive: bool, isInitialized: bool)

  /** The hook's return value: outside interactive mode it reports neither activity nor
      initialization, whatever its state holds. */
  function Report(interactive: bool, r: Recorder): (st: Status)
    ensures !interactive ==> !st.isActive && !st.isInitialized
    ensures interactive ==> st == Status(r.isActive, r.isInitialized)
  {
    if !interactive then Status(false, false) else Status(r.isActive, r.isInitialized)
  }
}
