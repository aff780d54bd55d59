# Car detector page: session state, capture, recognition and storage

A Dafny model of the logic inside `app.js`, a browser page that lets a user
create named classes, capture camera frames as examples for them (each frame
turned into a 1024-number MobileNet activation and handed to a
nearest-neighbour classifier), run continuous recognition against the
classifier, and save or load the collected examples in browser storage.

The page's module-level variables become the fields of one class,
`App.Session`: `classes`, `currentMode`, `recognitionRunning`,
`recognitionAnimationId` and `captureInterval`. Beside them are the
classifier's stored examples (label to embeddings, in insertion order), the
result overlay's text and style, the status line, the storage record, and the
browser's queues: live interval timers, requested animation frames and
predictions still on their way. Each handler is a method. Three methods model
browser events:

- `CaptureTick` is one firing of a capture timer.
- `AnimationFrame` is one requested frame running `predict`.
- `PredictSettled` is the classifier's promise settling.

Frames from the camera enter as the extractor's answer for that frame: an
embedding, or a failure. The answers to `prompt` and `confirm` enter as
parameters.

Files:

- `text.dfy` (module `JsText`): `String.prototype.trim` over ECMAScript
  whitespace and line terminators.
- `codec.dfy` (module `Codec`): the row-major flattening done by saving and
  the reshape into rows of 1024 done by loading, with both round trips.
- `model.dfy` (module `Model`): the data types, the confidence threshold,
  the registry/classifier consistency predicate, and what saving and loading
  do, as functions with their lemmas.
- `session.dfy` (module `App`): the session class and its handlers.
- `scenarios.dfy` (module `Scenarios`): handler runs from a fresh page, with
  the save/reload round trip end to end and the two findings below.

Behaviour the model keeps as `app.js` has it:

- Loading takes the stored `examples` counts as they are; it does not recount
  the arrays. `Model.LoadedConsistentIff` states exactly when the registry
  then agrees with the classifier, for a load into an empty classifier (the
  load at start-up).
- An array whose length is not a multiple of 1024 stops loading at that
  label; the registry has already been replaced and the labels before it
  have already been added.
- Loading adds to the classifier without clearing it first.
- Deleting a label that is not registered raises no error and leaves the
  registry as it is; it still removes the label from the classifier if the
  classifier holds it.
- Starting a capture does not stop a running one (finding 1).
- A prediction that settles after a stop is still shown (finding 2).

The session also counts recognition runs (`generation`, bumped by every
stop) and tags each pending prediction with the run that started it. The page
keeps no such counter. The as-written handlers ignore it; only the corrected
completion `PredictSettledChecked` reads it.

## Model

| member | source | states |
|---|---|---|
| `JsText.SkipForward` | app.js:122-123 | the index of the first non-whitespace code point: everything before it is whitespace and the code point there is not |
| `JsText.SkipBackward` | app.js:122-123 | the index just past the last non-whitespace code point of a range: everything after it is whitespace and the code point before it is not |
| `JsText.Trim` | app.js:122-123 | the result is the answer with its leading and trailing whitespace removed: a contiguous slice with only whitespace before and after it, not starting or ending with whitespace, and empty exactly when the answer is all whitespace |
| `JsText.TrimmedIsFixed` | app.js:122-123 | a name with no whitespace at either end is left unchanged by trimming |
| `JsText.TrimIdempotent` | app.js:122-123 | trimming twice is trimming once |
| `Codec.Reshape` | app.js:362-363 | a flat array whose length is a multiple of 1024 is cut into `length / 1024` rows of exactly 1024 entries |
| `Codec.Flatten` | app.js:330-331 | concatenates a label's examples in capture order, each example's entries contiguous; examples of 1024 entries give exactly 1024 numbers each |
| `Codec.FlattenAt` | app.js:330-331 | row-major layout: entry j of example i is at index i * 1024 + j of the flat array |
| `Codec.ReshapeFlatten` | app.js:326-366 | reshaping the saved flat array gives back exactly the saved rows |
| `Codec.FlattenReshape` | app.js:361-364 | flattening the reshaped rows gives back exactly the stored flat array when its length is a multiple of 1024 |
| `Model.StyleFor` | app.js:300-304 | a confidence of at least 0.80 (`CONFIDENCE_THRESHOLD`, app.js:14) gives `high-confidence`, anything lower gives `low-confidence` |
| `Model.DatasetOf` | app.js:326-332 | the saved `dataset` has exactly the classifier's labels, each with 1024 numbers per stored example |
| `Model.Unflatten` | app.js:362-364 | the embeddings rebuilt from a flat array hold exactly its numbers, 1024 per embedding |
| `Model.Restored` | app.js:361-366 | loading keeps every label the classifier had and adds every stored label, and labels absent from storage keep their examples |
| `Model.RestoredAdd` | app.js:361-366 | loading one more stored label appends its embeddings to what the classifier held for it and leaves every other label as it was |
| `Model.RestoredAt` | app.js:361-366 | after loading, a label holds what it held before, followed by the embeddings of its stored array in order; a label that is not stored keeps its examples |
| `Model.RestoredCount` | app.js:361-366 | loading a label adds as many examples as its flat array holds whole embeddings |
| `Model.SaveLoadRoundTrip` | app.js:326-366 | saving then loading into an empty classifier restores the same labels with the same examples in the same order |
| `Model.ReloadDuplicates` | app.js:357-366 | loading twice stores every saved example twice, so loading is not idempotent |
| `Model.LoadedConsistentIff` | app.js:357-366 | after loading into an empty classifier, the registry matches the classifier exactly when every stored count equals its array's length / 1024 and every name is its key |
| `App.FlattenAll` | app.js:326-332 | the loop over the classifier's labels builds exactly the flattened dataset |
| `App.RestoredStep` | app.js:361-366 | loading one more label adds its examples after the existing ones and touches no other label |
| `App.Session.constructor` | app.js:2-10 | the initial globals: no classes, training mode, recognition stopped, no handles |
| `App.Session.AddClassPrompt` | app.js:119-137 | a non-blank trimmed name that is not a key is added with 0 examples; a dismissed or blank answer or a duplicate leaves `classes` unchanged; consistency is preserved |
| `App.Session.DeleteClass` | app.js:139-153 | a confirmed delete removes the label from `classes` and from the classifier and leaves every other label as it was; an unconfirmed one changes nothing |
| `App.Session.StartCapture` | app.js:201-213 | a new timer capturing for the class is started under the next free handle, that handle is stored and the handle counter advances; a previous timer stays live and is no longer referenced |
| `App.Session.StartCaptureExclusive` | app.js:201-213 | corrected start: the running capture is stopped first, so at most one capture timer runs; the new timer takes the next free handle and the counter advances |
| `App.Session.StopCapture` | app.js:236-247 | `captureInterval` is null afterwards and its timer is cleared; a second call changes nothing |
| `App.Session.CaptureTick` | app.js:213-233 | a successful tick adds exactly one example under the class and raises its count by exactly 1; on an extractor failure it calls `stopCapture`, which clears the timer `captureInterval` names; a tick for a deleted class still adds the example and then calls `stopCapture` the same way |
| `App.Session.Predict` | app.js:277-288 | when not running nothing happens and no frame is requested; otherwise a prediction is started, or the next frame is requested when there are no classes or the frame could not be embedded |
| `App.Session.RequestFrame` | app.js:313 | a new frame is requested and its handle stored in `recognitionAnimationId` |
| `App.Session.PredictSettled` | app.js:288-313 | a settled answer is shown with the style the threshold gives and on the status line; a rejection is swallowed; the next frame is requested either way, whether or not recognition still runs |
| `App.Session.PredictSettledChecked` | app.js:288-313 | corrected completion: an answer is shown only if recognition runs and the run that asked for it is the current one; an answer of a stopped run, even after a restart, changes nothing and requests no frame; a current run with no answer keeps the display and still requests the next frame, whose handle is stored |
| `App.Session.AnimationFrame` | app.js:277-313 | a requested frame runs `predict`; while recognition runs its next iteration stays pending; when recognition is not running nothing further happens; when it runs with no classes or an unembedded frame, the next frame is requested and its handle stored; when a prediction starts, the stored handle is kept |
| `App.Session.StartRecognition` | app.js:250-263 | with zero classes the "train first" overlay and status are shown and nothing starts; otherwise recognition is marked running and `predict` runs once, starting a prediction or requesting a frame |
| `App.Session.StopRecognition` | app.js:265-275 | recognition is stopped, the requested frame is cancelled, `recognitionAnimationId` is null and the overlay is cleared to neutral; pending predictions now belong to an earlier run |
| `App.Session.SwitchMode` | app.js:98-116 | the mode is recorded; training ends with recognition stopped, its frame cancelled and a cleared overlay; recognition shows "train first" with no classes and otherwise runs with status active and one prediction started or one frame requested |
| `App.Session.SaveModelToStorage` | app.js:317-346 | with zero classes nothing is written; otherwise storage holds `classes` and the row-major flattening of each label's examples |
| `App.Session.LoadModelFromStorage` | app.js:348-377 | the outcome is "no saved model" exactly when nothing is stored, and then nothing changes; otherwise `classes` is replaced by the stored one and the stored examples are added to the classifier; a badly sized array stops loading part way |
| `App.Session.ClearModel` | app.js:379-395 | a confirmed clear empties the classifier, `classes` and storage |
| `Scenarios.AddClass` | app.js:119-137 | on a fresh page, adding any non-blank trimmed name registers it with 0 examples and touches nothing else |
| `Scenarios.PressCapture` | app.js:201-213 | pressing that class's capture button leaves one live timer capturing for it |
| `Scenarios.CaptureOnce` | app.js:213-233 | one capture tick stores the example and sets the count to 1 |
| `Scenarios.CaptureTwice` | app.js:213-247 | two capture ticks store both examples in order and set the count to 2 |
| `Scenarios.SaveTwice` | app.js:317-346 | saving writes the registry with count 2 and the flattening of both examples |
| `Scenarios.SaveAndReloadTwoExamples` | app.js:317-366 | a class with two captured examples, saved and loaded into a new page, comes back with count 2 and the same two vectors in capture order |
| `Scenarios.DoubleStartLeaksTimer` | app.js:201-247 | as written, two starts and one release leave the first capture timer running |
| `Scenarios.LeakedTimerSurvivesTicks` | app.js:213-240 | as written, the leaked timer stays live after a tick whose extraction fails and after a tick for a class that is not registered |
| `Scenarios.DoubleStartExclusiveStops` | app.js:201-247 | with the corrected start, the same presses and release leave no capture timer |
| `Scenarios.StoppedWhilePredicting` | app.js:98-116 | recognition started with a prediction pending, then training chosen: stopped, overlay empty, one prediction still pending |
| `Scenarios.StaleResultShown` | app.js:265-306 | as written, a prediction settling after the stop is shown on the overlay while recognition is stopped |
| `Scenarios.StaleResultDiscarded` | app.js:265-306 | with the corrected completion, the late prediction leaves the overlay empty |
| `Scenarios.RestartedWhilePredicting` | app.js:98-116 | recognition started again before the stopped run's prediction settles: running, one frame of the new run pending |
| `Scenarios.RestartedStaleResultShown` | app.js:277-313 | as written, the stopped run's answer is shown in the new run and a second frame is requested beside the new run's |
| `Scenarios.RestartedStaleResultDiscarded` | app.js:277-313 | with the corrected completion, the stopped run's answer is dropped and only the new run's frame stays pending |

## Left out

- Start-up (`init`), the camera (`initCamera`, `flipCamera`) and the checks for models that failed to load (app.js:202-205, 278 and the `if (classifier)` tests): the model starts from a page whose MobileNet and classifier loaded.
- `renderClasses`, event-listener wiring, button captions and example-count labels (app.js:156-196, 207-211, 223-227, 242-246, 398-404): DOM only.
- MobileNet inference and `tf.browser.fromPixels`/`dispose`: each frame's embedding, or the extractor's failure, is an input.
- Classifier internals: the classifier is its label-to-examples map. Adding a `[n, 1024]` tensor at load time is taken to append its n rows; how the library really stores a 2-D example is not modelled. Confidence computation is not modelled either: a prediction is an input.
- `Math.round(confidence * 100)` and the message strings: the overlay and status keep the label and the raw confidence; texts are datatype constructors.
- JSON encoding and `localStorage`: storage holds the parsed record. Malformed JSON, a missing `dataset` field, the `modelData.classes || {}` fallback and non-numeric values are not modelled. Exceptions thrown while saving (such as a full quota) are not modelled either.
- JavaScript objects used as dictionaries: in the source, an inherited property name such as `constructor` passes the `classes[name]` duplicate test. The model's registry is a map of its own keys only.
- The 100 ms capture period, the 3-second message timeout (app.js:371) and real scheduling: ticks, frames and promise completions are explicit events in any order the caller chooses.
- `alert`/`confirm`/`prompt`: answers are parameters; the alert shown is the returned outcome.
- `switchMode` accepts any string in the source; the page only passes `'training'` and `'recognition'`, the two `Mode` values.
- App.Session.LoadModelFromStorage: the order in which stored labels are processed is left open (the source uses `Object.keys` order). On failure the contract says which labels were applied through a ghost out-parameter and does not fix that set.

## Findings

| source | as written | input that shows it | evidently intended | confidence | as-written member | corrected member |
|---|---|---|---|---|---|---|
| app.js:213 | `startCapture` overwrites `captureInterval` with the new timer without clearing the timer already running | touch two capture buttons at once, then lift: `stopCapture` clears only the second timer and the first goes on adding examples; neither a failed tick of that timer nor deleting its class stops it, since both only clear the timer `captureInterval` names | starting a capture stops the running one, so releasing stops all capture | medium, not executed | `App.Session.StartCapture` with `Scenarios.DoubleStartLeaksTimer` and `Scenarios.LeakedTimerSurvivesTicks` | `App.Session.StartCaptureExclusive` with `Scenarios.DoubleStartExclusiveStops` |
| app.js:288-306 | after `await classifier.predictClass`, the overlay and status are written and the next frame is requested without checking that recognition is still running, or that it was not stopped and restarted meanwhile | open the recognition tab and switch back to training before the prediction settles: the overlay that `stopRecognition` cleared shows the late result; open the recognition tab again before it settles: the late result is shown and a second prediction loop runs beside the new one | a result from a recognition run that has since been stopped is discarded | high, not executed | `App.Session.PredictSettled` with `Scenarios.StaleResultShown` and `Scenarios.RestartedStaleResultShown` | `App.Session.PredictSettledChecked` with `Scenarios.StaleResultDiscarded` and `Scenarios.RestartedStaleResultDiscarded` |
