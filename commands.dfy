/** The voice-command classifier run on each final speech-recognition result:
    the transcript is lower-cased and checked for two fixed phrases, in order. */
module Commands {
  import opened Strings

  datatype Command = OpenCamera | StartDetection | Unrecognized

  const OpenCameraPhrase: string := "open camera"
  const StartDetectionPhrase: string := "start detection"

  /** Classifies a transcript; the "open camera" test comes first, so it wins
      when both phrases are present. */
  function Classify(transcript: string): (c: Command)
    ensures c == OpenCamera <==> Occurs(ToLower(transcript), OpenCameraPhrase)
    ensures c == StartDetection <==>
      !Occurs(ToLower(transcript), OpenCameraPhrase) &&
      Occurs(ToLower(transcript), StartDetectionPhrase)
    ensures c == Unrecognized <==>
      !Occurs(ToLower(transcript), OpenCameraPhrase) &&
      !Occurs(ToLower(transcript), StartDetectionPhrase)
  {
    var command := ToLower(transcript);
    if Includes(command, OpenCameraPhrase) then OpenCamera
    else if Includes(command, StartDetectionPhrase) then StartDetection
    else Unrecognized
  }

  /** The classification does not depend on letter case. */
  lemma ClassifyIgnoresCase(transcript: string)
    ensures Classify(ToLower(transcript)) == Classify(transcript)
  {
    ToLowerIdempotent(transcript);
  }

  /** Once a transcript asks to open the camera, words spoken before or after
      it (including "start detection") do not change that. */
  lemma {:induction false} OpenCameraSurvivesExtraWords(pre: string, transcript: string, post: string)
    requires Classify(transcript) == OpenCamera
    ensures Classify(pre + transcript + post) == OpenCamera
  {
    ToLowerConcat(pre, transcript);
    ToLowerConcat(pre + transcript, post);
    OccursExtended(ToLower(pre), ToLower(transcript), ToLower(post), OpenCameraPhrase);
  }

  /** A transcript that contains "start detection" is never left unrecognised. */
  lemma {:induction false} StartDetectionIsRecognized(pre: string, post: string)
    ensures Classify(pre + StartDetectionPhrase + post) != Unrecognized
  {
    ToLowerConcat(pre, StartDetectionPhrase);
    ToLowerConcat(pre + StartDetectionPhrase, post);
    assert ToLower(StartDetectionPhrase) == StartDetectionPhrase;
    OccursSelf(StartDetectionPhrase);
    OccursExtended(ToLower(pre), StartDetectionPhrase, ToLower(post), StartDetectionPhrase);
  }

  /** "please open camera now" opens the camera. */
  lemma OpenCameraExample()
    ensures Classify("please open camera now") == OpenCamera
  {
    assert OccursAt(ToLower("please open camera now"), OpenCameraPhrase, 7);
  }

  /** "open camera and start detection" opens the camera: the first test wins. */
  lemma BothPhrasesExample()
    ensures Classify("open camera and start detection") == OpenCamera
  {
  }

  /** "hello" is not a command. */
  lemma UnrecognizedExample()
    ensures Classify("hello") == Unrecognized
  {
  }
}
