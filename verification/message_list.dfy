/** The derivations of the `MessageList` component: which transcript lines are visible,
    who spoke them, which are highlighted as latest, and whether the "recording"
    placeholder shows. Rendering, scrolling and the 600 ms placeholder delay are left out;
    `shouldShowRecording` is an input. */
module MessageListView {
  import opened Results
  import opened PodcastTypes
  import opened Text

  /** `participantMap`: participants keyed by lower-cased id, later entries overriding
      earlier ones with the same key. */
  function ParticipantMap(ps: seq<Participant>): (m: map<string, Participant>)
    ensures m.Keys == set j | 0 <= j < |ps| :: Lower(ps[j].id)
    ensures forall k :: k in m ==> m[k] in ps && Lower(m[k].id) == k
  {
    if |ps| == 0 then map[]
    else
      var last := ps[|ps| - 1];
      var earlier := ParticipantMap(ps[..|ps| - 1]);
      assert forall j :: 0 <= j < |ps| - 1 ==> ps[..|ps| - 1][j] == ps[j];
      earlier[Lower(last.id) := last]
  }

  /** The entry under a key is the participant that came last among those with that key. */
  lemma {:induction false} LastOccurrenceWins(ps: seq<Participant>, j: nat)
    requires j < |ps|
    requires forall i :: j < i < |ps| ==> Lower(ps[i].id) != Lower(ps[j].id)
    ensures ParticipantMap(ps)[Lower(ps[j].id)] == ps[j]
  {
    if j < |ps| - 1 {
      var front := ps[..|ps| - 1];
      assert front[j] == ps[j];
      forall i | j < i < |front|
        ensures Lower(front[i].id) != Lower(front[j].id)
      {
        assert front[i] == ps[i];
      }
      LastOccurrenceWins(front, j);
      assert ParticipantMap(front)[Lower(ps[j].id)] == ps[j];
      assert Lower(ps[|ps| - 1].id) != Lower(ps[j].id);
    }
  }

  /** `participantMap[message.speaker.toLowerCase()]`. */
  function SpeakerOf(m: map<string, Participant>, msg: PodcastMessage): Option<Participant> {
    var key := Lower(msg.speaker);
    if key in m then Some(m[key]) else None
  }

  /** Speaker lookup ignores case: a message finds the last participant whose id equals
      its speaker up to ASCII case, and no participant when there is none. */
  lemma SpeakerLookupIgnoresCase(ps: seq<Participant>, msg: PodcastMessage)
    ensures (exists j :: 0 <= j < |ps| && Lower(ps[j].id) == Lower(msg.speaker))
              <==> SpeakerOf(ParticipantMap(ps), msg).Some?
    ensures forall j :: (0 <= j < |ps| && Lower(ps[j].id) == Lower(msg.speaker) &&
              (forall i :: j < i < |ps| ==> Lower(ps[i].id) != Lower(ps[j].id))) ==>
              SpeakerOf(ParticipantMap(ps), msg) == Some(ps[j])
  {
    forall j | 0 <= j < |ps| && Lower(ps[j].id) == Lower(msg.speaker) &&
               (forall i :: j < i < |ps| ==> Lower(ps[i].id) != Lower(ps[j].id))
      ensures SpeakerOf(ParticipantMap(ps), msg) == Some(ps[j])
    {
      LastOccurrenceWins(ps, j);
    }
  }

  /** The filter of `visibleMessages`: everything in interactive mode, otherwise the
      messages with a non-empty id that has been played. */
  predicate Shown(msg: PodcastMessage, interactive: bool, played: set<string>) {
    interactive || (msg.id != "" && msg.id in played)
  }

  /** The positions of the shown messages, in increasing order. */
  function ShownPositions(msgs: seq<PodcastMessage>, interactive: bool, played: set<string>): (idx: seq<nat>)
    ensures forall i :: 0 <= i < |idx| ==> idx[i] < |msgs| && Shown(msgs[idx[i]], interactive, played)
    ensures forall i, j :: 0 <= i < j < |idx| ==> idx[i] < idx[j]
    ensures forall p :: 0 <= p < |msgs| && Shown(msgs[p], interactive, played) ==> p in idx
  {
    if |msgs| == 0 then []
    else
      var rest := ShownPositions(msgs[..|msgs| - 1], interactive, played);
      if Shown(msgs[|msgs| - 1], interactive, played) then rest + [|msgs| - 1] else rest
  }

  /** `visibleMessages`: the shown messages, in their original order. */
  function VisibleMessages(msgs: seq<PodcastMessage>, interactive: bool, played: set<string>): (v: seq<PodcastMessage>)
    ensures |v| == |ShownPositions(msgs, interactive, played)|
    ensures forall i :: 0 <= i < |v| ==> v[i] == msgs[ShownPositions(msgs, interactive, played)[i]]
  {
    if |msgs| == 0 then []
    else
      var front := msgs[..|msgs| - 1];
      var rest := VisibleMessages(front, interactive, played);
      if Shown(msgs[|msgs| - 1], interactive, played) then rest + [msgs[|msgs| - 1]] else rest
  }

  /** In interactive mode the whole transcript is visible. */
  lemma {:induction false} InteractiveShowsAll(msgs: seq<PodcastMessage>, played: set<string>)
    ensures VisibleMessages(msgs, true, played) == msgs
  {
    if |msgs| > 0 {
      var front, last := msgs[..|msgs| - 1], msgs[|msgs| - 1];
      assert Shown(last, true, played);
      assert VisibleMessages(msgs, true, played) == VisibleMessages(front, true, played) + [last];
      InteractiveShowsAll(front, played);
      assert msgs == front + [last];
    }
  }

  /** Playing more chunks never hides a message: every position visible before is still
      visible once the played set has grown. */
  lemma VisibilityGrowsWithPlayed(msgs: seq<PodcastMessage>, interactive: bool, played: set<string>, more: set<string>)
    requires played <= more
    ensures forall p :: p in ShownPositions(msgs, interactive, played) ==> p in ShownPositions(msgs, interactive, more)
    ensures |VisibleMessages(msgs, interactive, played)| <= |VisibleMessages(msgs, interactive, more)|
  {
    var small := ShownPositions(msgs, interactive, played);
    var large := ShownPositions(msgs, interactive, more);
    forall p | p in small
      ensures p in large
    {
      var i :| 0 <= i < |small| && small[i] == p;
      assert Shown(msgs[p], interactive, more);
    }
    StrictlyIncreasingSubset(small, large);
  }

  /** A strictly increasing sequence whose elements all occur in another strictly
      increasing sequence is no longer than it. */
  lemma {:induction false} StrictlyIncreasingSubset(a: seq<nat>, b: seq<nat>)
    requires forall i, j :: 0 <= i < j < |a| ==> a[i] < a[j]
    requires forall i, j :: 0 <= i < j < |b| ==> b[i] < b[j]
    requires forall x :: x in a ==> x in b
    ensures |a| <= |b|
    decreases |a|
  {
    if |a| > 0 {
      var top := a[|a| - 1];
      assert top in a;
      var k :| 0 <= k < |b| && b[k] == top;
      var b' := b[..k];
      forall x | x in a[..|a| - 1]
        ensures x in b'
      {
        var i :| 0 <= i < |a| - 1 && a[i] == x;
        assert x in a;
        var j :| 0 <= j < |b| && b[j] == x;
        assert x < top;
      }
      StrictlyIncreasingSubset(a[..|a| - 1], b');
    }
  }

  /** `latestMessageTimestamp`: the timestamp of the last visible message, if any. */
  function LatestTimestamp(visible: seq<PodcastMessage>): (t: Option<string>)
    ensures t.None? <==> |visible| == 0
    ensures t.Some? ==> t.value == visible[|visible| - 1].timestamp
  {
    if |visible| == 0 then None else Some(visible[|visible| - 1].timestamp)
  }

  /** `isLatestMessage` of every rendered message: the last visible message is always
      highlighted, and so is every other visible message that shares its timestamp. */
  function Highlighted(visible: seq<PodcastMessage>): (h: seq<bool>)
    ensures |h| == |visible|
    ensures |visible| > 0 ==> h[|visible| - 1]
    ensures forall i :: 0 <= i < |h| ==> (h[i] <==> visible[i].timestamp == visible[|visible| - 1].timestamp)
  {
    var latest := LatestTimestamp(visible);
    seq(|visible|, i requires 0 <= i < |visible| => latest.Some? && visible[i].timestamp == latest.value)
  }

  /** `humanParticipant`: the first participant of kind human. */
  function HumanParticipant(ps: seq<Participant>): (h: Option<Participant>)
    ensures h.None? <==> forall j :: 0 <= j < |ps| ==> !ps[j].kind.Human?
    ensures h.Some? ==>
              h.value.kind.Human? &&
              (exists j :: 0 <= j < |ps| && ps[j] == h.value && forall i :: 0 <= i < j ==> !ps[i].kind.Human?)
  {
    if |ps| == 0 then None
    else if ps[0].kind.Human? then Some(ps[0])
    else
      var h := HumanParticipant(ps[1..]);
      if h.Some? then
        var j :| 0 <= j < |ps[1..]| && ps[1..][j] == h.value && forall i :: 0 <= i < j ==> !ps[1..][i].kind.Human?;
        assert ps[j + 1] == h.value && forall i :: 0 <= i < j + 1 ==> !ps[i].kind.Human?;
        h
      else h
  }

  /** The last visible message was spoken by the human participant (ids compared
      lower-cased). */
  predicate LastFromHuman(visible: seq<PodcastMessage>, ps: seq<Participant>) {
    && |visible| > 0
    && HumanParticipant(ps).Some?
    && Lower(visible[|visible| - 1].speaker) == Lower(HumanParticipant(ps).value.id)
  }

  /** `showRecordingMessage`. Its early exit on an empty message list can only answer
      false when `shouldShowRecording` is already false, so the result is: the flag is
      raised and the last visible message is not the human's (none visible, no human
      participant, or another speaker). */
  function ShowRecordingMessage(shouldShow: bool, msgs: seq<PodcastMessage>,
                                visible: seq<PodcastMessage>, ps: seq<Participant>): (show: bool)
    ensures show <==> shouldShow && !LastFromHuman(visible, ps)
  {
    if !shouldShow && |msgs| == 0 then false
    else
      var human := HumanParticipant(ps);
      var differs :=
        |visible| == 0 || human.None? || Lower(visible[|visible| - 1].speaker) != Lower(human.value.id);
      differs && shouldShow
  }

  /** The effect that lowers `shouldShowRecording` once the human's own line is visible. */
  function ResetRecordingFlag(shouldShow: bool, visible: seq<PodcastMessage>, ps: seq<Participant>): (flag: bool)
    ensures LastFromHuman(visible, ps) ==> !flag
    ensures !LastFromHuman(visible, ps) ==> flag == shouldShow
  {
    if |visible| > 0 && HumanParticipant(ps).Some? &&
       Lower(visible[|visible| - 1].speaker) == Lower(HumanParticipant(ps).value.id)
    then false
    else shouldShow
  }

  /** The reset never changes what is on screen: when it fires the placeholder was
      already hidden, and afterwards it stays hidden until the flag is raised again. */
  lemma ResetAgreesWithPlaceholder(shouldShow: bool, msgs: seq<PodcastMessage>,
                                   visible: seq<PodcastMessage>, ps: seq<Participant>)
    ensures ShowRecordingMessage(ResetRecordingFlag(shouldShow, visible, ps), msgs, visible, ps)
              == ShowRecordingMessage(shouldShow, msgs, visible, ps)
    ensures LastFromHuman(visible, ps) ==>
              !ShowRecordingMessage(ResetRecordingFlag(shouldShow, visible, ps), msgs, visible, ps)
  {
  }
}
