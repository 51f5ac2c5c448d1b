/** The component's state and the handlers that update it: whether the camera
    is open, the items of the last successful detection, the last error
    message, and (standing for the speech synthesiser) the log of everything
    spoken so far. */
module App {
  import opened Strings
  import opened Commands
  import opened Detection

  /** The result of the screenshot-and-inference step of a detection: the
      service's records, or a failure of any kind (no screenshot, transport
      error, error status, a response that is not a list). */
  datatype Outcome = Success(records: seq<RawDetection>) | Failure

  const CameraOpenedNotice: string := "Camera is open. Say 'Start Detection' or press the Detect button."
  const CameraClosedNotice: string := "Camera closed."
  const CameraNotReadyError: string := "Please ensure the camera is open."
  const DetectionFailedError: string := "Object detection failed. Please try again."
  const DetectionFailedNotice: string := "Object detection failed."
  const NotUnderstoodNotice: string := "Sorry, I didn't understand that command."

  class AccessibilityApp {
    var isCameraOpen: bool
    var detectedObjects: seq<DetectedItem>
    var error: Option<string>
    /** Every text handed to the speech synthesiser, oldest first. */
    var spoken: seq<string>

    /** The results on display belong to an open camera. */
    predicate ResultsOnlyWhileOpen()
      reads this
    {
      !isCameraOpen ==> detectedObjects == []
    }

    /** The initial state: camera closed, nothing detected, no error. */
    constructor ()
      ensures !isCameraOpen && detectedObjects == [] && error == None && spoken == []
      ensures ResultsOnlyWhileOpen()
    {
      isCameraOpen := false;
      detectedObjects := [];
      error := None;
      spoken := [];
    }

    /** `openCamera`: marks the camera open and announces it; results and
        error are left as they were. */
    method OpenCamera()
      modifies this
      ensures isCameraOpen
      ensures detectedObjects == old(detectedObjects) && error == old(error)
      ensures spoken == old(spoken) + [CameraOpenedNotice]
      ensures old(ResultsOnlyWhileOpen()) ==> ResultsOnlyWhileOpen()
    {
      isCameraOpen := true;
      spoken := spoken + [CameraOpenedNotice];
    }

    /** `closeCamera`: marks the camera closed and clears the results, but
        keeps the error message. */
    method CloseCamera()
      modifies this
      ensures !isCameraOpen && detectedObjects == []
      ensures error == old(error)
      ensures spoken == old(spoken) + [CameraClosedNotice]
      ensures ResultsOnlyWhileOpen()
    {
      isCameraOpen := false;
      detectedObjects := [];
      spoken := spoken + [CameraClosedNotice];
    }

    /** The guard at the start of `startObjectDetection`: `webcamReady` says
        whether the webcam component and its video element exist. When they
        do not, only the error is set (and spoken); the results stay. */
    method BeginDetection(webcamReady: bool) returns (started: bool)
      modifies this
      ensures started == webcamReady
      ensures isCameraOpen == old(isCameraOpen) && detectedObjects == old(detectedObjects)
      ensures started ==> error == old(error) && spoken == old(spoken)
      ensures !started ==> error == Some(CameraNotReadyError) && spoken == old(spoken) + [CameraNotReadyError]
    {
      if !webcamReady {
        error := Some(CameraNotReadyError);
        spoken := spoken + [CameraNotReadyError];
        return false;
      }
      return true;
    }

    /** The part of `startObjectDetection` after the inference call returns.
        The camera may have been closed while the call was awaited; a
        non-empty success then leaves results on display for a closed camera.
        On success the mapped items replace the results and the summary is
        spoken; the error is not cleared. On failure only the error is set and
        a fixed notice spoken; no partial results are published. `fixed2`
        stands for `toFixed(2)`. */
    method CompleteDetection(outcome: Outcome, fixed2: real -> string)
      modifies this
      ensures isCameraOpen == old(isCameraOpen)
      ensures outcome.Success? ==>
        && detectedObjects == Normalize(outcome.records)
        && error == old(error)
        && spoken == old(spoken) + [Summary(detectedObjects, fixed2)]
      ensures outcome.Failure? ==>
        && detectedObjects == old(detectedObjects)
        && error == Some(DetectionFailedError)
        && spoken == old(spoken) + [DetectionFailedNotice]
      ensures old(ResultsOnlyWhileOpen()) ==>
        (ResultsOnlyWhileOpen() <==> old(isCameraOpen) || outcome.Failure? || outcome.records == [])
    {
      match outcome
      case Success(records) =>
        var detectedItems := Normalize(records);
        detectedObjects := detectedItems;
        // The sentence is built here as the handler builds it; the ensures
        // shows it equal to Summary.
        if |detectedItems| > 0 {
          var feedback := Join(Phrases(detectedItems, fixed2), ", ");
          spoken := spoken + [DetectedPrefix + feedback + "."];
        } else {
          spoken := spoken + [NothingDetected];
        }
      case Failure =>
        error := Some(DetectionFailedError);
        spoken := spoken + [DetectionFailedNotice];
    }

    /** `startObjectDetection` run to completion with nothing else happening
        while the inference call is awaited. */
    method StartObjectDetection(webcamReady: bool, outcome: Outcome, fixed2: real -> string)
      modifies this
      ensures isCameraOpen == old(isCameraOpen)
      ensures !webcamReady ==>
        && detectedObjects == old(detectedObjects)
        && error == Some(CameraNotReadyError)
        && spoken == old(spoken) + [CameraNotReadyError]
      ensures webcamReady && outcome.Success? ==>
        && detectedObjects == Normalize(outcome.records)
        && error == old(error)
        && spoken == old(spoken) + [Summary(detectedObjects, fixed2)]
      ensures webcamReady && outcome.Failure? ==>
        && detectedObjects == old(detectedObjects)
        && error == Some(DetectionFailedError)
        && spoken == old(spoken) + [DetectionFailedNotice]
      ensures old(ResultsOnlyWhileOpen()) && (webcamReady ==> old(isCameraOpen)) ==> ResultsOnlyWhileOpen()
    {
      var started := BeginDetection(webcamReady);
      if started {
        CompleteDetection(outcome, fixed2);
      }
    }

    /** The `onresult` handler of a voice session: dispatches on the
        classification of the transcript. */
    method OnVoiceResult(transcript: string, webcamReady: bool, outcome: Outcome, fixed2: real -> string)
      modifies this
      ensures Classify(transcript).OpenCamera? ==>
        && isCameraOpen
        && detectedObjects == old(detectedObjects) && error == old(error)
        && spoken == old(spoken) + [CameraOpenedNotice]
      ensures Classify(transcript).StartDetection? ==>
        && isCameraOpen == old(isCameraOpen)
        && (!webcamReady ==>
              && detectedObjects == old(detectedObjects)
              && error == Some(CameraNotReadyError)
              && spoken == old(spoken) + [CameraNotReadyError])
        && (webcamReady && outcome.Success? ==>
              && detectedObjects == Normalize(outcome.records)
              && error == old(error)
              && spoken == old(spoken) + [Summary(detectedObjects, fixed2)])
        && (webcamReady && outcome.Failure? ==>
              && detectedObjects == old(detectedObjects)
              && error == Some(DetectionFailedError)
              && spoken == old(spoken) + [DetectionFailedNotice])
      ensures Classify(transcript).Unrecognized? ==>
        && isCameraOpen == old(isCameraOpen)
        && detectedObjects == old(detectedObjects) && error == old(error)
        && spoken == old(spoken) + [NotUnderstoodNotice]
    {
      var command := Classify(transcript);
      if command.OpenCamera? {
        OpenCamera();
      } else if command.StartDetection? {
        StartObjectDetection(webcamReady, outcome, fixed2);
      } else {
        spoken := spoken + [NotUnderstoodNotice];
      }
    }
  }
}
