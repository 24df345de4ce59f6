/** The `AudioController` component: the `m:ss` time labels, the width of the progress
    bar, and which controls are offered and enabled. The layout itself is left out. */
module AudioControllerView {
  import opened Results
  import opened Text
  import opened JsNumbers
  import opened AudioControllerHook

  /** A number as `formatTime` receives it: NaN, or a finite value. */
  datatype Number = NaN | Finite(value: real)

  /** `Math.floor(seconds / 60)`. */
  function WholeMinutes(v: real): (m: int)
    ensures v >= 0.0 ==> m >= 0
    ensures 60.0 * m as real <= v < 60.0 * m as real + 60.0
  {
    (v / 60.0).Floor
  }

  /** `Math.floor(seconds % 60)`, with `%` taking the sign of the dividend. */
  function WholeSeconds(v: real): (s: int)
    ensures v >= 0.0 ==> 0 <= s < 60
    ensures v < 0.0 ==> -60 <= s <= 0
  {
    Remainder(v, 60.0).Floor
  }

  /** `formatTime`: minutes, a colon, and the seconds padded to two characters. */
  function FormatTime(n: Number): (text: string)
    ensures n.NaN? ==> text == "0:00"
    ensures n.Finite? && n.value >= 0.0 ==> |text| >= 4 && text[|text| - 3] == ':'
  {
    match n
    case NaN => "0:00"
    case Finite(v) =>
      IntToString(WholeMinutes(v)) + ":" + PadStart(IntToString(WholeSeconds(v)), 2, '0')
  }

  /** Reading a two-character seconds field back. */
  lemma TwoDigitsRoundTrip(sec: nat)
    requires sec < 60
    ensures |PadStart(NatToString(sec), 2, '0')| == 2
    ensures AllDigits(PadStart(NatToString(sec), 2, '0'))
    ensures DigitsToNat(PadStart(NatToString(sec), 2, '0')) == sec
  {
    var field := PadStart(NatToString(sec), 2, '0');
    if sec < 10 {
      assert NatToString(sec) == [DigitChar(sec)];
      assert field == ['0', DigitChar(sec)];
      LeadingZero(DigitChar(sec));
    } else {
      var tens := NatToString(sec / 10);
      assert tens == [DigitChar(sec / 10)];
      assert NatToString(sec) == tens + [DigitChar(sec % 10)];
      assert field == [DigitChar(sec / 10), DigitChar(sec % 10)];
      TwoDigits(DigitChar(sec / 10), DigitChar(sec % 10));
    }
  }

  /** A leading zero does not change the value of a digit. */
  lemma LeadingZero(c: char)
    requires IsDigit(c)
    ensures AllDigits(['0', c]) && DigitsToNat(['0', c]) == DigitValue(c)
  {
    assert ['0'][..0] == [];
    assert DigitsToNat(['0']) == 0;
    assert ['0', c][..1] == ['0'];
    assert DigitsToNat(['0', c]) == DigitsToNat(['0']) * 10 + DigitValue(c);
  }

  /** The value of two digits. */
  lemma TwoDigits(hi: char, lo: char)
    requires IsDigit(hi) && IsDigit(lo)
    ensures AllDigits([hi, lo]) && DigitsToNat([hi, lo]) == 10 * DigitValue(hi) + DigitValue(lo)
  {
    assert [hi][..0] == [];
    assert DigitsToNat([hi]) == DigitValue(hi);
    assert [hi, lo][..1] == [hi];
    assert DigitsToNat([hi, lo]) == DigitsToNat([hi]) * 10 + DigitValue(lo);
  }

  /** For a non-negative time the whole minutes and the seconds below 60 together make
      up the whole seconds of the input. */
  lemma MinutesAndSecondsSplit(v: real)
    requires v >= 0.0
    ensures 60 * WholeMinutes(v) + WholeSeconds(v) == v.Floor
    ensures WholeMinutes(v) == v.Floor / 60 && WholeSeconds(v) == v.Floor % 60
  {
    var m, s := WholeMinutes(v), WholeSeconds(v);
    TruncQuotientBounds(v, 60.0);
    assert Trunc(v / 60.0) == m;
    var r := Remainder(v, 60.0);
    assert v == 60.0 * m as real + r;
    assert s as real <= r < s as real + 1.0;
    assert (60 * m + s) as real <= v < (60 * m + s + 1) as real;
    assert 60 * m + s == v.Floor;
    assert 0 <= s < 60;
  }

  /** For a non-negative time, the label shows the whole minutes and the remaining whole
      seconds of the input; `LabelReadsBack` says how the two fields read back. */
  lemma FormatTimeReadsBack(v: real)
    requires v >= 0.0
    ensures FormatTime(Finite(v)) == Label(v.Floor / 60, v.Floor % 60)
  {
    FormatTimeIsLabel(v);
    MinutesAndSecondsSplit(v);
  }

  lemma FormatTimeIsLabel(v: real)
    requires v >= 0.0
    ensures WholeMinutes(v) >= 0 && 0 <= WholeSeconds(v) < 60
    ensures FormatTime(Finite(v)) == Label(WholeMinutes(v), WholeSeconds(v))
  {
  }

  /** The label of `m` whole minutes and `s` seconds. */
  function Label(m: nat, s: nat): string {
    NatToString(m) + ":" + PadStart(NatToString(s), 2, '0')
  }

  /** Reads an `m:ss` label: decimal minutes, a colon, and exactly two decimal digits. */
  function ParseLabel(text: string): Option<(nat, nat)> {
    if |text| >= 4 && text[|text| - 3] == ':' && AllDigits(text[..|text| - 3]) && AllDigits(text[|text| - 2..])
    then Some((DigitsToNat(text[..|text| - 3]), DigitsToNat(text[|text| - 2..])))
    else None
  }

  /** A label parses back into the minutes and seconds it was made of. */
  lemma LabelReadsBack(m: nat, s: nat)
    requires s < 60
    ensures ParseLabel(Label(m, s)) == Some((m, s))
  {
    var minutes, seconds := NatToString(m), PadStart(NatToString(s), 2, '0');
    TwoDigitsRoundTrip(s);
    DigitsRoundTrip(m);
    ParseJoined(minutes, seconds);
  }

  /** Digits, a colon and two digits parse into the values of the two digit strings. */
  lemma ParseJoined(minutes: string, seconds: string)
    requires |minutes| >= 1 && AllDigits(minutes)
    requires |seconds| == 2 && AllDigits(seconds)
    ensures ParseLabel(minutes + ":" + seconds) == Some((DigitsToNat(minutes), DigitsToNat(seconds)))
  {
    var text := minutes + ":" + seconds;
    var n := |minutes|;
    assert |text| == n + 3;
    assert text[n] == ':';
    assert forall i :: 0 <= i < n ==> text[i] == minutes[i];
    assert text[..n] == minutes;
    assert text[n + 1] == seconds[0] && text[n + 2] == seconds[1];
    assert text[n + 1..] == seconds;
  }

  /** The width of the progress bar in percent: the share of the total duration played,
      or 0 when the total is 0. */
  function ProgressPercent(currentTime: real, duration: real): (pct: real)
    ensures duration == 0.0 ==> pct == 0.0
    ensures duration != 0.0 ==> pct * duration == currentTime * 100.0
  {
    if duration != 0.0 then currentTime / duration * 100.0 else 0.0
  }

  /** The bar stays within its track while the displayed time is within the total. */
  lemma ProgressWithinTrack(currentTime: real, duration: real)
    requires 0.0 <= currentTime <= duration
    ensures 0.0 <= ProgressPercent(currentTime, duration) <= 100.0
    ensures currentTime == duration && duration > 0.0 ==> ProgressPercent(currentTime, duration) == 100.0
  {
    if duration > 0.0 {
      var share := currentTime / duration;
      assert share * duration == currentTime;
      assert share <= 1.0;
    }
  }

  /** The button in the middle: a hold-to-record microphone in interactive mode, a
      play/pause toggle otherwise. */
  datatype CentreButton = Microphone(recording: bool) | PlayPause(showsPause: bool)

  datatype Controls = Controls(
    showProgress: bool,
    skipEnabled: bool,
    centre: CentreButton,
    centreEnabled: bool,
    rateEnabled: bool,
    rateOptions: seq<real>,
    selectedRate: real)

  /** The controls rendered for a controller state and the recorder's activity; the
      audio messages counted are the controller's chunks. */
  function ControlsFor(c: Controller, recorderActive: bool): (v: Controls)
    ensures v.showProgress <==> !c.interactive
    ensures v.skipEnabled <==> |c.chunks| > 0
    ensures v.rateEnabled <==> |c.chunks| > 0
    ensures v.centre.Microphone? <==> c.interactive
    ensures v.centre.Microphone? ==> v.centre.recording == recorderActive && v.centreEnabled
    ensures v.centre.PlayPause? ==> v.centre.showsPause == c.isPlaying && (v.centreEnabled <==> |c.chunks| > 0)
    ensures |v.rateOptions| == 7 && forall r :: r in v.rateOptions <==> r in PlaybackRates
    ensures v.selectedRate == c.rate
  {
    Controls(
      showProgress := !c.interactive,
      skipEnabled := |c.chunks| > 0,
      centre := if c.interactive then Microphone(recorderActive) else PlayPause(c.isPlaying),
      centreEnabled := c.interactive || |c.chunks| > 0,
      rateEnabled := |c.chunks| > 0,
      rateOptions := PlaybackRates,
      selectedRate := c.rate)
  }

  /** A click on the centre button: only an enabled play/pause button reacts, and it
      toggles playback. */
  function ClickCentre(v: Controls, c: Controller, now: real, reply: Reply): (s: Option<Step>)
    requires Valid(c)
    ensures s.Some? <==> v.centre.PlayPause? && v.centreEnabled
    ensures s.Some? ==> s.value == TogglePlayback(c, now, reply)
  {
    if v.centre.PlayPause? && v.centreEnabled then Some(TogglePlayback(c, now, reply)) else None
  }

  /** Choosing the option at `choice` in an enabled rate selector. */
  function SelectRate(v: Controls, c: Controller, choice: nat): (s: Option<Step>)
    requires Valid(c) && v.rateOptions == PlaybackRates && choice < |v.rateOptions|
    ensures s.Some? <==> v.rateEnabled
    ensures s.Some? ==> Valid(s.value.next) && s.value.next.rate == v.rateOptions[choice]
  {
    if v.rateEnabled then Some(ChangeRate(c, v.rateOptions[choice])) else None
  }

  /** In interactive mode nothing on the controls starts or pauses playback, and with no
      audio messages no control acts at all. */
  lemma ControlsNeverToggleInteractively(c: Controller, recorderActive: bool,
                                         now: real, reply: Reply, choice: nat)
    requires Valid(c) && choice < |PlaybackRates|
    ensures c.interactive ==> ClickCentre(ControlsFor(c, recorderActive), c, now, reply).None?
    ensures |c.chunks| == 0 ==>
              && ClickCentre(ControlsFor(c, recorderActive), c, now, reply).None?
              && SelectRate(ControlsFor(c, recorderActive), c, choice).None?
    ensures |c.chunks| > 0 && !c.interactive ==>
              ClickCentre(ControlsFor(c, recorderActive), c, now, reply)
                == Some(TogglePlayback(c, now, reply))
  {
  }
}
