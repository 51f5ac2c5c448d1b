# Accessibility vision app: the detection pipeline in Dafny

This project models the logic inside the single React component of the
accessibility app (`src/App.js`). The app narrates what a webcam sees. It
captures a frame, sends it to a remote object-detection service, estimates
each object's distance with a pinhole-camera rule and speaks a summary. Voice
commands can stand in for the buttons.

The model has four modules:

- `Strings` (`strings.dfy`): the JavaScript string operations the component
  uses. `toLowerCase` becomes `ToLower`, `includes` becomes `Includes` and
  `join` becomes `Join`. Only `Includes` is proved against an independent
  description: it is true exactly when some position holds the substring
  (`Occurs`). `ToLower` is specified character by character, with lemmas that
  it is idempotent and distributes over concatenation. `Join` is specified by
  its length, with lemmas about appending a part and about every part
  occurring in the result.
- `Commands` (`commands.dfy`): the voice-command classifier. The transcript
  is lower-cased, then tested for "open camera" and then for
  "start detection". If neither is found, the command is unrecognised.
- `Detection` (`detection.dfy`): the pure part of a detection run.
  - `CalculateDistance` computes `1.7 * 700 / (yMax - yMin)` over exact
    reals. A missing box counts as `[0, 0, 0, 0]`. A zero height gives
    `Infinite`, the model of JavaScript's `Infinity`.
  - `Normalize` maps the response records one by one to items, following
    JavaScript truthiness: an empty label becomes "Unknown", and a score of
    0 becomes "N/A".
  - `Summary` builds the spoken sentence from the items.
- `App` (`app.dfy`): the class `AccessibilityApp`. Its fields are
  `isCameraOpen`, `detectedObjects` and `error`, plus `spoken`, a log of
  every text passed to the speech synthesiser. Its methods are the handlers
  `openCamera`, `closeCamera`, `startObjectDetection` and the voice
  `onresult` callback.
  - The `await` in `startObjectDetection` splits it into two methods:
    `BeginDetection` runs the webcam guard and `CompleteDetection` handles
    the service's outcome. `StartObjectDetection` runs both with nothing in
    between.

The network call, the screenshot and the speech APIs are not modelled as
code. The model receives their results as parameters instead:

- `webcamReady` says whether `webcamRef.current.video` exists.
- `outcome` is the inference result: `Success(records)` or `Failure`.
- `fixed2` stands for `Number.prototype.toFixed(2)`.

Behaviour of the code worth knowing:

- Closing the camera clears the results but NOT the error message.
- A successful detection does not clear an earlier error.
- A zero-height box's distance is spoken as the text "Infinity"
  (`Infinity.toFixed(2)`).
- No guard stops a second detection from starting while one is in flight.
- The failure message stored in `error` ("Object detection failed. Please
  try again.") differs from the one spoken ("Object detection failed.").

## Model

| member | source | states |
|---|---|---|
| Strings.ToLower | src/App.js:33 | lower-casing keeps the length and maps each character on its own (ASCII letters to lower case) |
| Strings.ToLowerIdempotent | src/App.js:33 | lower-casing an already lower-cased transcript changes nothing |
| Strings.ToLowerConcat | src/App.js:33 | lower-casing a concatenation is the concatenation of the lower-cased parts |
| Strings.Includes | src/App.js:34-35 | `includes` is true exactly when some position of the string holds the substring |
| Strings.OccursExtended | src/App.js:34-35 | a substring that occurs in a string still occurs after text is added on either side |
| Strings.Join | src/App.js:101 | `join(", ")`: for a non-empty list the joined string is as long as the parts plus one separator between each neighbouring pair |
| Strings.JoinSnoc | src/App.js:96-101 | joining one more part appends the separator and that part |
| Strings.JoinContainsPart | src/App.js:96-101 | every part occurs in the joined string |
| Commands.Classify | src/App.js:33-36 | OpenCamera iff the lower-cased transcript contains "open camera"; StartDetection iff it contains "start detection" and not "open camera"; Unrecognized iff it contains neither |
| Commands.ClassifyIgnoresCase | src/App.js:33 | classifying the lower-cased transcript gives the same command as classifying the transcript |
| Commands.OpenCameraSurvivesExtraWords | src/App.js:34 | extra words on either side of an "open camera" transcript, "start detection" included, still yield OpenCamera: the first branch wins |
| Commands.StartDetectionIsRecognized | src/App.js:34-35 | any transcript containing "start detection" is classified as OpenCamera or StartDetection, never Unrecognized |
| Commands.OpenCameraExample | src/App.js:34 | "please open camera now" is OpenCamera |
| Commands.BothPhrasesExample | src/App.js:34-35 | "open camera and start detection" is OpenCamera |
| Commands.UnrecognizedExample | src/App.js:36 | "hello" is Unrecognized |
| Detection.CalculateDistance | src/App.js:113-120 | the distance is infinite iff the box, defaulting to [0,0,0,0], has zero height; otherwise distance times height equals 1.7 * 700 = 1190 |
| Detection.MissingBoxIsInfinite | src/App.js:114-120 | a record without a bounding box gets an infinite distance |
| Detection.DistanceIgnoresX | src/App.js:114-115 | changing xMin and xMax never changes the distance |
| Detection.TallerIsNearer | src/App.js:115-120 | for positive heights the distance is positive and strictly decreases as the box gets taller |
| Detection.ItemName | src/App.js:88 | the name is the label when the label is present and non-empty, otherwise "Unknown"; it is never empty |
| Detection.ItemConfidence | src/App.js:89 | the confidence is "N/A" iff the score is missing or exactly 0; otherwise the percentage divided by 100 is the score |
| Detection.ToItem | src/App.js:87-91 | the `map` callback: the name is the label when truthy, else "Unknown"; the confidence is "N/A" iff the score is missing or 0, and otherwise the score times 100; the distance is `calculateDistance` of the box |
| Detection.ConfidenceText | src/App.js:89 | the confidence text is "N/A" for a falsy score and `toFixed(2)` of the percentage otherwise |
| Detection.DistanceText | src/App.js:122 | the distance text is `toFixed(2)` of the metres, and "Infinity" for the infinite distance, as `Infinity.toFixed(2)` gives |
| Detection.Phrase | src/App.js:99 | the template literal by literal: the name, " (", the confidence text, "%) is approximately ", then the distance text and " meters away" |
| Detection.Normalize | src/App.js:87-91 | one item per record, same length, item i built from record i |
| Detection.NormalizeAppend | src/App.js:87-91 | mapping a concatenated response equals concatenating the mapped parts |
| Detection.TwoRecordItems | src/App.js:87-91 | a "person" record with score 0.95 and box [10,20,110,220] becomes ("person", 95%, 5.95 m); a record with nothing becomes ("Unknown", N/A, infinite) |
| Detection.Phrases | src/App.js:97-100 | one phrase per item, phrase i describes item i |
| Detection.PhrasesSnoc | src/App.js:97-100 | the phrases of a list extended by one item are the old phrases plus that item's phrase |
| Detection.Summary | src/App.js:95-105 | the sentence is exactly "No objects detected." iff the list is empty; otherwise it starts with "Detected: " and ends with "." |
| Detection.EveryItemSpoken | src/App.js:95-102 | every item's phrase occurs in the spoken summary |
| Detection.SummarySnoc | src/App.js:96-102 | one more item inserts ", " and its phrase before the final full stop |
| Detection.OneItemSummary | src/App.js:96-102 | the summary of one item is "Detected: " + its phrase + "." |
| Detection.TwoItemSummary | src/App.js:96-102 | the summary of two items is "Detected: " + first phrase + ", " + second phrase + "." |
| App.AccessibilityApp.constructor | src/App.js:6-9 | the initial state has the camera closed, no results, no error and nothing spoken |
| App.AccessibilityApp.OpenCamera | src/App.js:51-54 | the camera becomes open; results and error are unchanged; the open notice is spoken |
| App.AccessibilityApp.CloseCamera | src/App.js:57-61 | the camera becomes closed and the results empty; the error is unchanged; the close notice is spoken |
| App.AccessibilityApp.BeginDetection | src/App.js:65-70 | without a webcam video only the error is set to "Please ensure the camera is open." and spoken; results and the camera flag are untouched |
| App.AccessibilityApp.CompleteDetection | src/App.js:72-109 | on success the results become the mapped records, the error is kept and the summary is spoken; on failure only the error is set and the failure notice spoken; results stay with an open camera unless the camera was closed during the call and records arrived |
| App.AccessibilityApp.StartObjectDetection | src/App.js:64-110 | the three paths (no webcam, failure, success) change exactly the fields listed above, and the results stay with an open camera when the guard implies an open camera |
| App.AccessibilityApp.OnVoiceResult | src/App.js:32-37 | an OpenCamera transcript opens the camera, a StartDetection transcript runs a detection, anything else only speaks the apology |

## Left out

- Rendering (src/App.js:125-192): JSX and styling have no behaviour to model.
- `startListening`, the `isListening` flag and its `onend` reset (src/App.js:16-31, 39-41): the browser speech-recognition session is a platform event source. Only its `onresult` handler is modelled, as `OnVoiceResult`. The message spoken when recognition is unsupported is not modelled.
- `speakText` (src/App.js:45-48): modelled only as appending the text to the `spoken` log. Audio output and queuing are not modelled.
- The screenshot, the data-URI split and the HTTP request with its URL, headers and token (src/App.js:12-13, 73-85): foreign library and network I/O. Their result is the `Outcome` parameter, and every exception they can raise is the single `Failure`.
- `toFixed(2)` and floating point (src/App.js:89, 122): numbers are exact reals. Text is produced by the `fixed2` parameter, except for the literal "N/A" and "Infinity". NaN, negative zero and rounding are not modelled.
- Strings.ToLower: maps only the ASCII letters A-Z. JavaScript's full Unicode case mapping is not modelled.
- Detection.CalculateDistance: the box is four reals. The destructuring at src/App.js:114 takes the first four entries, so a longer array behaves like its first four entries, which the model can represent. An array with fewer than four entries, or entries that `-` cannot convert to numbers, gives NaN and the text "NaN"; this is not modelled. Numeric strings and `null` entries convert (`"220" - "20"` is 200, `null - null` is 0) and are covered only through the real values they convert to. A `bounding_box` that is truthy but not iterable (an object or a number) makes the destructuring throw inside the `map`, and a `null` or `undefined` element of `response.data` makes `obj.label` at src/App.js:88 throw; in both cases the whole run takes the catch path (failure error set, nothing published). The model cannot express such a record inside `Success(records)`; a caller must pass `Failure` for it. A non-string label or a non-numeric score is not modelled either.
- The interleaving of `closeCamera` with an awaited detection is captured only by calling `CompleteDetection` on its own. No scheduler of events is modelled.
