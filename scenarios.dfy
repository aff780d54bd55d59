/**
  Runs of the page's handlers from a fresh session: the storage round trip
  end to end, and the two places where the page does not do what its own
  code evidently means to do, each beside the corrected handler.
 */
module Scenarios {
  import opened Codec
  import opened JsText
  import opened Model
  import opened App

  /** A new page where the class `name` is added through the prompt. */
  method AddClass(name: string) returns (page: Session)
    requires name != [] && IsTrimmed(name)
    ensures fresh(page) && page.Valid() && page.LoopAlive() && page.Quiet() && page.CaptureExclusive()
    ensures page.classes == map[name := ClassInfo(name, 0)] && page.classifier == map[]
    ensures page.storage.None? && page.timers == map[] && page.captureInterval.None?
    ensures !page.recognitionRunning && page.frames == {} && page.inFlight == multiset{} && page.generation == 0
    ensures page.overlayText == Blank && page.recognitionAnimationId.None?
    ensures page.nextTimerId == 1
  {
    page := new Session(None);
    TrimmedIsFixed(name);
    var added := page.AddClassPrompt(Some(name));
  }

  /** The same page once the capture button of `name` is pressed. */
  method PressCapture(name: string) returns (page: Session)
    requires name != [] && IsTrimmed(name)
    ensures fresh(page) && page.Valid() && page.LoopAlive() && page.Quiet()
    ensures page.classes == map[name := ClassInfo(name, 0)] && page.classifier == map[]
    ensures page.storage.None? && page.timers == map[1 := name] && page.captureInterval == Some(1)
    ensures !page.recognitionRunning && page.frames == {} && page.inFlight == multiset{} && page.generation == 0
    ensures page.overlayText == Blank && page.recognitionAnimationId.None?
  {
    page := AddClass(name);
    page.StartCapture(name);
  }

  /** The same page after one capture tick with `e`; capture still runs. */
  method CaptureOnce(name: string, e: Embedding) returns (page: Session)
    requires name != [] && IsTrimmed(name)
    ensures fresh(page) && page.Valid() && page.LoopAlive() && page.Quiet()
    ensures page.classes == map[name := ClassInfo(name, 1)] && page.classifier == map[name := [e]]
    ensures page.storage.None? && page.timers == map[1 := name] && page.captureInterval == Some(1)
    ensures !page.recognitionRunning && page.frames == {} && page.inFlight == multiset{} && page.generation == 0
    ensures page.overlayText == Blank && page.recognitionAnimationId.None?
  {
    page := PressCapture(name);
    page.CaptureTick(1, Some(e));
    assert page.classifier[name] == [e];
    assert page.classifier.Keys == {name};
  }

  /** The same page after capture ticks with `v1` and `v2` and the button's release. */
  method CaptureTwice(name: string, v1: Embedding, v2: Embedding) returns (page: Session)
    requires name != [] && IsTrimmed(name)
    ensures fresh(page) && page.classes == map[name := ClassInfo(name, 2)]
    ensures page.classifier == map[name := [v1, v2]]
  {
    page := CaptureOnce(name, v1);
    page.CaptureTick(1, Some(v2));
    assert page.classifier[name] == [v1] + [v2] == [v1, v2];
    assert page.classifier.Keys == {name};
    page.StopCapture();
  }

  /** The record saving writes for `name` with the two captured examples. */
  method SaveTwice(name: string, v1: Embedding, v2: Embedding) returns (record: SavedModel)
    requires name != [] && IsTrimmed(name)
    ensures record.classes == map[name := ClassInfo(name, 2)]
    ensures record.dataset == DatasetOf(map[name := [v1, v2]])
  {
    var page := CaptureTwice(name, v1, v2);
    var saved := page.SaveModelToStorage();
    record := page.storage.value;
  }

  /** A class with two captured examples is saved, and the record is loaded
      into a new page: the class comes back with two examples, in capture
      order. */
  method SaveAndReloadTwoExamples(name: string, v1: Embedding, v2: Embedding)
    returns (count: nat, examples: seq<Embedding>)
    requires name != [] && IsTrimmed(name)
    ensures count == 2 && examples == [v1, v2]
  {
    var record := SaveTwice(name, v1, v2);
    SaveLoadRoundTrip(map[name := [v1, v2]]);
    var reloaded := new Session(Some(record));
    var loaded, applied := reloaded.LoadModelFromStorage();
    assert Only(record.dataset, applied) == record.dataset;
    count := reloaded.classes[name].examples;
    examples := reloaded.classifier[name];
  }

  /** As written: capture is started twice without a release in between
      (two capture buttons touched at once), then released. The first
      timer is still live and still captures for its class. */
  method DoubleStartLeaksTimer() returns (live: map<nat, string>)
    ensures live == map[1 := "car"]
  {
    var page := new Session(None);
    page.StartCapture("car");
    page.StartCapture("bike");
    page.StopCapture();
    live := page.timers;
  }

  /** After the release, the leaked timer of "car" cannot stop itself: a tick
      whose extraction fails, and a tick for a class that is not registered,
      each call `stopCapture`, which finds no handle to clear. */
  method LeakedTimerSurvivesTicks(e: Embedding) returns (afterFailure: map<nat, string>, afterDeleted: map<nat, string>)
    ensures afterFailure == map[1 := "car"]
    ensures afterDeleted == map[1 := "car"]
  {
    var page := new Session(None);
    page.StartCapture("car");
    page.StartCapture("bike");
    page.StopCapture();
    page.CaptureTick(1, None);
    afterFailure := page.timers;
    page.CaptureTick(1, Some(e));
    afterDeleted := page.timers;
  }

  /** Corrected: the same presses and release leave no capture timer. */
  method DoubleStartExclusiveStops() returns (live: map<nat, string>)
    ensures live == map[]
  {
    var page := new Session(None);
    page.StartCaptureExclusive("car");
    page.StartCaptureExclusive("bike");
    page.StopCapture();
    live := page.timers;
  }

  /** A page with the class `name` holding one example, recognition started
      with a prediction of run 0 on its way, then the training tab chosen. */
  method StoppedWhilePredicting(name: string, e: Embedding) returns (page: Session)
    requires name != [] && IsTrimmed(name)
    ensures fresh(page) && page.Valid() && page.LoopAlive() && page.Quiet()
    ensures page.inFlight == multiset{0} && page.generation == 1 && !page.recognitionRunning
    ensures page.overlayText == Blank && page.frames == {} && page.classifier == map[name := [e]]
  {
    page := CaptureOnce(name, e);
    page.StopCapture();
    page.SwitchMode(Recognition, true);
    page.SwitchMode(Training, true);
  }

  /** As written: the prediction settles after the stop and its answer is
      shown on the overlay although recognition is stopped. */
  method StaleResultShown(name: string, e: Embedding) returns (text: OverlayText, running: bool)
    requires name != [] && IsTrimmed(name)
    ensures !running && text == Showing(name, 0.9)
  {
    var page := StoppedWhilePredicting(name, e);
    page.PredictSettled(0, Some(Prediction(name, 0.9)));
    text, running := page.overlayText, page.recognitionRunning;
  }

  /** Corrected: the late answer is discarded and the overlay stays blank. */
  method StaleResultDiscarded(name: string, e: Embedding) returns (text: OverlayText, running: bool)
    requires name != [] && IsTrimmed(name)
    ensures !running && text == Blank
  {
    var page := StoppedWhilePredicting(name, e);
    page.PredictSettledChecked(0, Some(Prediction(name, 0.9)));
    text, running := page.overlayText, page.recognitionRunning;
  }

  /** The same page after the recognition tab is chosen again, before the
      prediction of the stopped run settles; the first frame of the new run
      could not be embedded, so the new run waits on frame `frame`. */
  method RestartedWhilePredicting(name: string, e: Embedding) returns (page: Session, frame: nat)
    requires name != [] && IsTrimmed(name)
    ensures fresh(page) && page.Valid() && page.LoopAlive()
    ensures page.inFlight == multiset{0} && page.generation == 1 && page.recognitionRunning
    ensures page.overlayText == Blank && page.frames == {frame} && page.nextFrameId == frame + 1
  {
    page := StoppedWhilePredicting(name, e);
    frame := page.nextFrameId;
    page.SwitchMode(Recognition, false);
  }

  /** As written: the answer of the stopped run is shown in the new run, and
      it requests a second frame, so two prediction loops now run side by side. */
  method RestartedStaleResultShown(name: string, e: Embedding) returns (text: OverlayText, pending: nat)
    requires name != [] && IsTrimmed(name)
    ensures text == Showing(name, 0.9) && pending == 2
  {
    var page, frame := RestartedWhilePredicting(name, e);
    page.PredictSettled(0, Some(Prediction(name, 0.9)));
    assert page.frames == {frame, frame + 1};
    text, pending := page.overlayText, |page.frames|;
  }

  /** Corrected: the answer of the stopped run is discarded and only the new
      run's frame stays pending. */
  method RestartedStaleResultDiscarded(name: string, e: Embedding) returns (text: OverlayText, pending: nat)
    requires name != [] && IsTrimmed(name)
    ensures text == Blank && pending == 1
  {
    var page, frame := RestartedWhilePredicting(name, e);
    page.PredictSettledChecked(0, Some(Prediction(name, 0.9)));
    text, pending := page.overlayText, |page.frames|;
  }
}
