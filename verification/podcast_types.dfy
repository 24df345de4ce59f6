/** The records exchanged between the socket, the player and the transcript view. */
module PodcastTypes {
  import opened Results

  /** The `audioFormat` tag of a chunk. The type admits only `mp3` and `pcm_16000`, but the
      value arrives untyped from the socket, so any other tag is kept as `Unrecognised`. */
  datatype AudioFormat = Mp3 | Pcm16000 | Unrecognised(tag: string)

  /** One unit of playable audio. `audio` is the base64 text as received; `duration` is
      present only when the server sent one with the chunk. A resume replaces a known
      duration with the one the player reports, but never gives one to a chunk that
      arrived without it. */
  datatype AudioChunk = AudioChunk(
    id: string,
    audio: string,
    timestamp: string,
    format: AudioFormat,
    duration: Option<real>)

  /** One transcript line. */
  datatype PodcastMessage = PodcastMessage(
    id: string,
    text: string,
    timestamp: string,
    speaker: string)

  datatype ParticipantKind = Human | Ai

  /** A speaker of the podcast, matched against `PodcastMessage.speaker` by id. */
  datatype Participant = Participant(
    id: string,
    name: string,
    kind: ParticipantKind,
    imageUrl: string)
}
