/**
  The detector page's session: the module-level variables of the page
  (`classes`, `currentMode`, `recognitionRunning`, `recognitionAnimationId`,
  `captureInterval`), the classifier's stored examples, the two overlay
  elements the handlers write, browser storage, and the browser's timer and
  animation-frame queues. Each handler of the page is a method; a timer tick,
  an animation frame and the completion of a pending prediction are events,
  also methods. Camera frames enter as the feature extractor's answer for
  that frame (an embedding, or a failure), user dialogs as their answers.
 */
module App {
  import opened Codec
  import opened JsText
  import opened Model

  /** What the user is told after "add class". */
  datatype AddOutcome = Cancelled | BlankName | Duplicate | Added

  /** What the user is told after "save". */
  datatype SaveOutcome = NothingToSave | Saved

  /** What the page reports after "load". */
  datatype LoadOutcome = NoSavedModel | Loaded | LoadFailed

  /** The timer table after `clearInterval` of the handle, if there is one. */
  function Cleared(timers: map<nat, string>, handle: Option<nat>): map<nat, string>
  {
    if handle.Some? then timers - {handle.value} else timers
  }

  /** The pending frames after `cancelAnimationFrame` of the handle, if there is one. */
  function WithoutFrame(frames: set<nat>, handle: Option<nat>): set<nat>
  {
    if handle.Some? then frames - {handle.value} else frames
  }

  /** Saving's loop over the classifier's labels: builds the `dataset` object,
      one flat array per label, exactly the flattening of that label's examples. */
  method FlattenAll(cls: Examples) returns (ds: FlatDataset)
    ensures ds == DatasetOf(cls)
  {
    ds := map[];
    var todo := cls.Keys;
    while todo != {}
      invariant todo <= cls.Keys
      invariant ds.Keys == cls.Keys - todo
      invariant forall l :: l in ds ==> ds[l] == Flatten(cls[l])
      decreases todo
    {
      var l :| l in todo;
      ds := ds[l := Flatten(cls[l])];
      todo := todo - {l};
    }
  }

  class Session {
    /** `classes`: the class registry shown as cards. */
    var classes: Registry
    /** The classifier's examples per label. */
    var classifier: Examples
    var currentMode: Mode
    var recognitionRunning: bool
    var recognitionAnimationId: Option<nat>
    var captureInterval: Option<nat>
    /** Text and style of the result overlay. */
    var overlayText: OverlayText
    var overlayStyle: Style
    /** Text of the recognition status line. */
    var status: StatusText
    /** The record under the storage key, if any. */
    var storage: Option<SavedModel>
    /** Browser: live interval timers, each with the class its callback captures for. */
    var timers: map<nat, string>
    /** Browser: animation-frame callbacks requested and not yet run or cancelled. */
    var frames: set<nat>
    /** Predictions whose promise has not settled yet, each tagged with the
        recognition run (`generation`) that started it. */
    var inFlight: multiset<nat>
    /** The current recognition run: the page does not keep it; it is bumped
        by every stop so that the corrected completion can tell an answer of
        an earlier run from one of the current run. */
    var generation: nat
    /** Browser: the next interval and frame handles (handles are positive). */
    var nextTimerId: nat
    var nextFrameId: nat

    /** The handles the page holds are ones the browser handed out, and a live
        `captureInterval` names a running timer. */
    ghost predicate Valid()
      reads this
    {
      && nextTimerId > 0 && nextFrameId > 0
      && (captureInterval.Some? ==> captureInterval.value in timers)
      && (forall h :: h in timers ==> 0 < h < nextTimerId)
      && (forall f :: f in frames ==> 0 < f < nextFrameId)
      && (recognitionAnimationId.Some? ==> 0 < recognitionAnimationId.value < nextFrameId)
    }

    /** While recognition runs, its next iteration is always pending: a frame
        is requested or a prediction of the current run is on its way. */
    ghost predicate LoopAlive()
      reads this
    {
      recognitionRunning ==> frames != {} || generation in inFlight
    }

    /** While recognition is stopped the overlay shows no prediction. */
    ghost predicate Quiet()
      reads this
    {
      !recognitionRunning ==> !overlayText.Showing?
    }

    /** At most one capture timer runs, and it is the one `captureInterval` names. */
    ghost predicate CaptureExclusive()
      reads this
    {
      timers.Keys == if captureInterval.Some? then {captureInterval.value} else {}
    }

    /** The page after a successful start-up, with `saved` in storage. */
    constructor (saved: Option<SavedModel>)
      ensures Valid() && LoopAlive() && CaptureExclusive() && Quiet()
      ensures classes == map[] && classifier == map[] && storage == saved
      ensures currentMode == Training && !recognitionRunning
      ensures recognitionAnimationId.None? && captureInterval.None?
      ensures overlayText == Blank && overlayStyle == Neutral && status == Initial
      ensures timers == map[] && frames == {} && inFlight == multiset{} && generation == 0
      ensures nextTimerId == 1 && nextFrameId == 1
    {
      classes, classifier, storage := map[], map[], saved;
      currentMode, recognitionRunning := Training, false;
      recognitionAnimationId, captureInterval := None, None;
      overlayText, overlayStyle, status := Blank, Neutral, Initial;
      timers, frames, inFlight, generation := map[], {}, multiset{}, 0;
      nextTimerId, nextFrameId := 1, 1;
    }

    /** "Add class": `answer` is what the name prompt returned (None when
        dismissed). The trimmed name is registered with no examples unless it
        is blank or already registered; otherwise nothing changes. */
    method AddClassPrompt(answer: Option<string>) returns (outcome: AddOutcome)
      modifies this`classes
      ensures outcome == Cancelled <==> answer.None?
      ensures answer.Some? ==>
                (outcome == BlankName <==> IsBlank(answer.value))
      ensures answer.Some? && Trim(answer.value) != [] ==>
                (outcome == Duplicate <==> Trim(answer.value) in old(classes))
      ensures outcome == Added <==>
                answer.Some? && Trim(answer.value) != [] && Trim(answer.value) !in old(classes)
      ensures outcome == Added ==>
                var name := Trim(answer.value);
                IsTrimmed(name) && name != [] && classes == old(classes)[name := ClassInfo(name, 0)]
      ensures outcome != Added ==> classes == old(classes)
      ensures old(Consistent(classes, classifier)) ==> Consistent(classes, classifier)
    {
      if answer.None? {
        return Cancelled;
      }
      var name := Trim(answer.value);
      if name == [] {
        return BlankName;
      }
      if name in classes {
        return Duplicate;
      }
      if Consistent(classes, classifier) {
        ConsistentAfterAdd(classes, classifier, name);
      }
      classes := classes[name := ClassInfo(name, 0)];
      outcome := Added;
    }

    /** Delete button: when confirmed, the label leaves the registry and,
        if the classifier holds it, the classifier. Every other label keeps
        its entry and its examples. */
    method DeleteClass(className: string, confirmed: bool)
      modifies this`classes, this`classifier
      ensures classes == if confirmed then old(classes) - {className} else old(classes)
      ensures classifier == if confirmed then old(classifier) - {className} else old(classifier)
      ensures confirmed ==> className !in classes && className !in classifier
      ensures old(Consistent(classes, classifier)) ==> Consistent(classes, classifier)
    {
      if confirmed {
        classes := classes - {className};
        if className in classifier {
          classifier := classifier - {className};
        }
      }
    }

    /** Capture button pressed: starts a 100 ms interval timer capturing for
        `className` and stores its handle, overwriting any previous handle
        without clearing that timer, which goes on running. */
    method StartCapture(className: string)
      requires Valid()
      modifies this`timers, this`captureInterval, this`nextTimerId
      ensures Valid()
      ensures old(nextTimerId) !in old(timers)
      ensures timers == old(timers)[old(nextTimerId) := className]
      ensures captureInterval == Some(old(nextTimerId)) && nextTimerId == old(nextTimerId) + 1
      ensures old(captureInterval).Some? ==>
                old(captureInterval).value in timers && captureInterval != old(captureInterval)
    {
      var handle := nextTimerId;
      nextTimerId := nextTimerId + 1;
      timers := timers[handle := className];
      captureInterval := Some(handle);
    }

    /** Capture button released: clears the timer `captureInterval` names, if
        any, and forgets it. Calling it again changes nothing. */
    method StopCapture()
      requires Valid()
      modifies this`timers, this`captureInterval
      ensures Valid() && captureInterval.None?
      ensures timers == Cleared(old(timers), old(captureInterval))
      ensures old(captureInterval).None? ==> timers == old(timers)
      ensures old(CaptureExclusive()) ==> CaptureExclusive() && timers == map[]
    {
      if captureInterval.Some? {
        timers := timers - {captureInterval.value};
        captureInterval := None;
      }
    }

    /** `StartCapture` as evidently intended: the running capture, if any, is
        stopped before the new timer starts, so at most one capture timer
        ever runs and releasing the button stops capture for good. */
    method StartCaptureExclusive(className: string)
      requires Valid()
      modifies this`timers, this`captureInterval, this`nextTimerId
      ensures Valid()
      ensures timers == Cleared(old(timers), old(captureInterval))[old(nextTimerId) := className]
      ensures captureInterval == Some(old(nextTimerId)) && nextTimerId == old(nextTimerId) + 1
      ensures old(CaptureExclusive()) ==> CaptureExclusive() && timers == map[old(nextTimerId) := className]
    {
      StopCapture();
      StartCapture(className);
    }

    /** One tick of the capture timer `handle`; `embedding` is the extractor's
        answer for the current frame (None when it threw). On success the
        example is added to the classifier under the timer's class and that
        class's count goes up by one. If the class has been deleted since
        capture started, the example is still added, the count update throws,
        and capture stops; if the extractor threw, capture stops. */
    method CaptureTick(handle: nat, embedding: Option<Embedding>)
      requires Valid() && handle in timers
      modifies this`classes, this`classifier, this`timers, this`captureInterval
      ensures Valid()
      ensures var c := old(timers)[handle];
              classifier == if embedding.Some? then old(classifier)[c := ExamplesOf(old(classifier), c) + [embedding.value]]
                            else old(classifier)
      ensures var c := old(timers)[handle];
              embedding.Some? && c in old(classes) ==>
                && classes == old(classes)[c := old(classes)[c].(examples := old(classes)[c].examples + 1)]
                && timers == old(timers) && captureInterval == old(captureInterval)
      ensures var c := old(timers)[handle];
              embedding.None? || c !in old(classes) ==>
                && classes == old(classes)
                && captureInterval.None? && timers == Cleared(old(timers), old(captureInterval))
      ensures var c := old(timers)[handle];
              old(Consistent(classes, classifier)) && (embedding.None? || c in old(classes)) ==>
                Consistent(classes, classifier)
      ensures old(CaptureExclusive()) ==> CaptureExclusive()
    {
      var className := timers[handle];
      if embedding.None? {
        StopCapture();
        return;
      }
      classifier := classifier[className := ExamplesOf(classifier, className) + [embedding.value]];
      if className !in classes {
        StopCapture();
        return;
      }
      var entry := classes[className];
      classes := classes[className := entry.(examples := entry.examples + 1)];
    }

    /** The body of `predict` up to its `await`; `embedded` says whether
        the frame could be embedded. When recognition is not running nothing
        happens and no frame is requested. Otherwise, with classes in the
        classifier and a frame embedded, a prediction is started; in every
        other case (no classes, extractor error) the next frame is requested. */
    method Predict(embedded: bool)
      requires Valid()
      modifies this`frames, this`inFlight, this`recognitionAnimationId, this`nextFrameId
      ensures Valid()
      ensures !recognitionRunning ==>
                && frames == old(frames) && inFlight == old(inFlight)
                && recognitionAnimationId == old(recognitionAnimationId) && nextFrameId == old(nextFrameId)
      ensures recognitionRunning && |classifier| > 0 && embedded ==>
                && inFlight == old(inFlight) + multiset{generation} && frames == old(frames)
                && recognitionAnimationId == old(recognitionAnimationId) && nextFrameId == old(nextFrameId)
      ensures recognitionRunning && (|classifier| == 0 || !embedded) ==>
                && inFlight == old(inFlight)
                && old(nextFrameId) !in old(frames) && frames == old(frames) + {old(nextFrameId)}
                && recognitionAnimationId == Some(old(nextFrameId)) && nextFrameId == old(nextFrameId) + 1
      ensures recognitionRunning ==> frames != {} || generation in inFlight
    {
      if !recognitionRunning {
        return;
      }
      if |classifier| > 0 && embedded {
        inFlight := inFlight + multiset{generation};
        return;
      }
      RequestFrame();
    }

    /** `recognitionAnimationId = requestAnimationFrame(predict)`. */
    method RequestFrame()
      requires Valid()
      modifies this`frames, this`recognitionAnimationId, this`nextFrameId
      ensures Valid()
      ensures old(nextFrameId) !in old(frames) && frames == old(frames) + {old(nextFrameId)}
      ensures recognitionAnimationId == Some(old(nextFrameId)) && nextFrameId == old(nextFrameId) + 1
    {
      var handle := nextFrameId;
      nextFrameId := nextFrameId + 1;
      frames := frames + {handle};
      recognitionAnimationId := Some(handle);
    }

    /** The rest of `predict`, once the classifier's promise of run `tag`
        settles: `result` is its answer, or None when it rejected. An answer
        is shown on the overlay, styled by the confidence threshold, and on
        the status line; a rejection is swallowed. Either way the next frame
        is requested. Whether recognition is still running, or was stopped
        and restarted meanwhile, is not checked again, so an answer that
        arrives after a stop is still shown. */
    method PredictSettled(tag: nat, result: Option<Prediction>)
      requires Valid() && tag in inFlight
      modifies this`overlayText, this`overlayStyle, this`status, this`inFlight,
               this`frames, this`recognitionAnimationId, this`nextFrameId
      ensures Valid() && LoopAlive()
      ensures inFlight == old(inFlight) - multiset{tag}
      ensures result.Some? ==>
                && overlayText == Showing(result.value.className, result.value.confidence)
                && overlayStyle == StyleFor(result.value.confidence)
                && status == Last(result.value.className, result.value.confidence)
      ensures result.None? ==>
                overlayText == old(overlayText) && overlayStyle == old(overlayStyle) && status == old(status)
      ensures old(nextFrameId) !in old(frames) && frames == old(frames) + {old(nextFrameId)}
      ensures recognitionAnimationId == Some(old(nextFrameId)) && nextFrameId == old(nextFrameId) + 1
    {
      inFlight := inFlight - multiset{tag};
      if result.Some? {
        var p := result.value;
        overlayText := Showing(p.className, p.confidence);
        overlayStyle := StyleFor(p.confidence);
        status := Last(p.className, p.confidence);
      }
      RequestFrame();
    }

    /** `PredictSettled` as evidently intended: once the promise settles, the
        answer is kept only if recognition is running and the run that asked
        for it is the current one. An answer of a stopped run, even when
        recognition has been started again since, is discarded without
        touching the overlay or requesting a frame. */
    method PredictSettledChecked(tag: nat, result: Option<Prediction>)
      requires Valid() && tag in inFlight
      modifies this`overlayText, this`overlayStyle, this`status, this`inFlight,
               this`frames, this`recognitionAnimationId, this`nextFrameId
      ensures Valid()
      ensures old(LoopAlive()) ==> LoopAlive()
      ensures old(Quiet()) ==> Quiet()
      ensures inFlight == old(inFlight) - multiset{tag}
      ensures !recognitionRunning || tag != generation ==>
                && overlayText == old(overlayText) && overlayStyle == old(overlayStyle) && status == old(status)
                && frames == old(frames) && recognitionAnimationId == old(recognitionAnimationId)
                && nextFrameId == old(nextFrameId)
      ensures recognitionRunning && tag == generation && result.Some? ==>
                && overlayText == Showing(result.value.className, result.value.confidence)
                && overlayStyle == StyleFor(result.value.confidence)
                && status == Last(result.value.className, result.value.confidence)
      ensures recognitionRunning && tag == generation && result.None? ==>
                overlayText == old(overlayText) && overlayStyle == old(overlayStyle) && status == old(status)
      ensures recognitionRunning && tag == generation ==>
                && old(nextFrameId) !in old(frames) && frames == old(frames) + {old(nextFrameId)}
                && recognitionAnimationId == Some(old(nextFrameId)) && nextFrameId == old(nextFrameId) + 1
    {
      if !recognitionRunning || tag != generation {
        inFlight := inFlight - multiset{tag};
        return;
      }
      PredictSettled(tag, result);
    }

    /** The browser runs the requested animation frame `handle`: `predict` again. */
    method AnimationFrame(handle: nat, embedded: bool)
      requires Valid() && handle in frames
      modifies this`frames, this`inFlight, this`recognitionAnimationId, this`nextFrameId
      ensures Valid() && LoopAlive()
      ensures !recognitionRunning ==>
                && frames == old(frames) - {handle} && inFlight == old(inFlight)
                && recognitionAnimationId == old(recognitionAnimationId) && nextFrameId == old(nextFrameId)
      ensures recognitionRunning && |classifier| > 0 && embedded ==>
                && frames == old(frames) - {handle} && inFlight == old(inFlight) + multiset{generation}
                && recognitionAnimationId == old(recognitionAnimationId) && nextFrameId == old(nextFrameId)
      ensures recognitionRunning && (|classifier| == 0 || !embedded) ==>
                && inFlight == old(inFlight)
                && frames == old(frames) - {handle} + {old(nextFrameId)}
                && recognitionAnimationId == Some(old(nextFrameId)) && nextFrameId == old(nextFrameId) + 1
    {
      frames := frames - {handle};
      Predict(embedded);
    }

    /** `startRecognition`; `embedded` is the extractor's outcome for the first
        frame. With no classes in the classifier it only shows the "train
        first" overlay and status and starts nothing; otherwise it marks
        recognition running and runs `predict` once. */
    method StartRecognition(embedded: bool)
      requires Valid() && LoopAlive()
      modifies this`recognitionRunning, this`status, this`overlayText, this`overlayStyle,
               this`frames, this`inFlight, this`recognitionAnimationId, this`nextFrameId
      ensures Valid() && LoopAlive()
      ensures old(Quiet()) ==> Quiet()
      ensures |classifier| == 0 ==>
                && overlayText == TrainFirst && overlayStyle == NoModel && status == NoTrainedClasses
                && recognitionRunning == old(recognitionRunning)
                && frames == old(frames) && inFlight == old(inFlight)
                && recognitionAnimationId == old(recognitionAnimationId) && nextFrameId == old(nextFrameId)
      ensures |classifier| > 0 ==>
                && recognitionRunning && status == Active
                && overlayText == old(overlayText) && overlayStyle == old(overlayStyle)
                && (if embedded then
                      && inFlight == old(inFlight) + multiset{generation} && frames == old(frames)
                      && recognitionAnimationId == old(recognitionAnimationId) && nextFrameId == old(nextFrameId)
                    else
                      && inFlight == old(inFlight) && frames == old(frames) + {old(nextFrameId)}
                      && recognitionAnimationId == Some(old(nextFrameId)) && nextFrameId == old(nextFrameId) + 1)
    {
      if |classifier| == 0 {
        overlayText, overlayStyle := TrainFirst, NoModel;
        status := NoTrainedClasses;
        return;
      }
      recognitionRunning := true;
      status := Active;
      Predict(embedded);
    }

    /** `stopRecognition`: recognition is marked stopped, the frame
        `recognitionAnimationId` names is cancelled and forgotten, and the
        overlay is cleared to neutral. Predictions already on their way are
        not cancelled; they now belong to an earlier run. */
    method StopRecognition()
      requires Valid()
      modifies this`recognitionRunning, this`recognitionAnimationId, this`frames,
               this`overlayText, this`overlayStyle, this`generation
      ensures Valid() && LoopAlive() && Quiet()
      ensures !recognitionRunning && recognitionAnimationId.None?
      ensures overlayText == Blank && overlayStyle == Neutral
      ensures frames == WithoutFrame(old(frames), old(recognitionAnimationId))
      ensures generation == old(generation) + 1
    {
      recognitionRunning := false;
      if recognitionAnimationId.Some? {
        frames := frames - {recognitionAnimationId.value};
        recognitionAnimationId := None;
      }
      overlayText, overlayStyle := Blank, Neutral;
      generation := generation + 1;
    }

    /** Tab switch: records the mode; the training tab stops recognition,
        the recognition tab starts it. */
    method SwitchMode(mode: Mode, embedded: bool)
      requires Valid() && LoopAlive()
      modifies this`currentMode, this`recognitionRunning, this`status, this`overlayText,
               this`overlayStyle, this`frames, this`inFlight, this`recognitionAnimationId,
               this`nextFrameId, this`generation
      ensures Valid() && LoopAlive()
      ensures old(Quiet()) ==> Quiet()
      ensures currentMode == mode
      ensures mode == Training ==>
                && !recognitionRunning && recognitionAnimationId.None?
                && overlayText == Blank && overlayStyle == Neutral
                && status == old(status) && inFlight == old(inFlight)
                && frames == WithoutFrame(old(frames), old(recognitionAnimationId))
                && generation == old(generation) + 1 && nextFrameId == old(nextFrameId)
      ensures mode == Recognition ==>
                && generation == old(generation)
                && (recognitionRunning <==> old(recognitionRunning) || |classifier| > 0)
      ensures mode == Recognition && |classifier| == 0 ==>
                && overlayText == TrainFirst && overlayStyle == NoModel && status == NoTrainedClasses
                && recognitionRunning == old(recognitionRunning)
                && frames == old(frames) && inFlight == old(inFlight)
                && recognitionAnimationId == old(recognitionAnimationId) && nextFrameId == old(nextFrameId)
      ensures mode == Recognition && |classifier| > 0 ==>
                && recognitionRunning && status == Active
                && overlayText == old(overlayText) && overlayStyle == old(overlayStyle)
                && (if embedded then
                      && inFlight == old(inFlight) + multiset{generation} && frames == old(frames)
                      && recognitionAnimationId == old(recognitionAnimationId) && nextFrameId == old(nextFrameId)
                    else
                      && inFlight == old(inFlight) && frames == old(frames) + {old(nextFrameId)}
                      && recognitionAnimationId == Some(old(nextFrameId)) && nextFrameId == old(nextFrameId) + 1)
    {
      currentMode := mode;
      if mode == Training {
        StopRecognition();
      } else {
        StartRecognition(embedded);
      }
    }

    /** "Save": with no classes in the classifier nothing is written;
        otherwise storage holds the registry as it is and, per label of the
        classifier, the row-major flattening of its examples. */
    method SaveModelToStorage() returns (outcome: SaveOutcome)
      modifies this`storage
      ensures outcome == NothingToSave <==> |classifier| == 0
      ensures outcome == NothingToSave ==> storage == old(storage)
      ensures outcome == Saved ==> storage == Some(SavedModel(classes, DatasetOf(classifier)))
    {
      if |classifier| == 0 {
        return NothingToSave;
      }
      var dataset := FlattenAll(classifier);
      storage := Some(SavedModel(classes, dataset));
      outcome := Saved;
    }

    /** "Load" (also run at start-up). With nothing stored nothing changes.
        Otherwise the registry is replaced by the stored one, counts
        included, and each stored label's flat array, in some order, is cut
        into embeddings that are added to the classifier after what it
        already holds. An array whose length is not a multiple of
        `EmbeddingSize` makes the reshape throw: loading stops there, keeping
        the registry and the labels already added. `applied` are the labels
        whose examples were added. */
    method LoadModelFromStorage() returns (outcome: LoadOutcome, ghost applied: set<string>)
      modifies this`classes, this`classifier
      ensures outcome == NoSavedModel <==> storage.None?
      ensures storage.None? ==> classes == old(classes) && classifier == old(classifier)
      ensures storage.Some? ==> classes == storage.value.classes
      ensures outcome == Loaded <==> storage.Some? && WellShaped(storage.value.dataset)
      ensures storage.Some? ==>
                && applied <= storage.value.dataset.Keys
                && WellShaped(Only(storage.value.dataset, applied))
                && classifier == Restored(old(classifier), Only(storage.value.dataset, applied))
      ensures outcome == Loaded ==> applied == storage.value.dataset.Keys
      ensures outcome == LoadFailed ==>
                exists l :: l in storage.value.dataset && l !in applied && |storage.value.dataset[l]| % EmbeddingSize != 0
    {
      applied := {};
      if storage.None? {
        return NoSavedModel, applied;
      }
      var saved := storage.value;
      classes := saved.classes;
      var ds := saved.dataset;
      ghost var before := classifier;
      var todo := ds.Keys;
      while todo != {}
        invariant classes == saved.classes
        invariant todo <= ds.Keys && applied == ds.Keys - todo
        invariant WellShaped(Only(ds, applied))
        invariant classifier == Restored(before, Only(ds, applied))
        decreases todo
      {
        var l :| l in todo;
        var data := ds[l];
        if |data| % EmbeddingSize != 0 {
          return LoadFailed, applied;
        }
        RestoredStep(before, ds, applied, l);
        classifier := classifier[l := ExamplesOf(classifier, l) + Unflatten(data)];
        todo := todo - {l};
        applied := applied + {l};
      }
      assert Only(ds, applied) == ds;
      outcome := Loaded;
    }

    /** "Clear": when confirmed, empties the classifier, the registry and the
        storage key. */
    method ClearModel(confirmed: bool)
      modifies this`classes, this`classifier, this`storage
      ensures confirmed ==> classes == map[] && classifier == map[] && storage.None?
      ensures !confirmed ==>
                classes == old(classes) && classifier == old(classifier) && storage == old(storage)
      ensures confirmed ==> Consistent(classes, classifier)
    {
      if confirmed {
        classifier := map[];
        classes := map[];
        storage := None;
      }
    }
  }

  /** Loading one more label of the stored dataset adds its reshaped
      examples after what the classifier holds for it and touches nothing else. */
  lemma RestoredStep(cls: Examples, ds: FlatDataset, done: set<string>, l: string)
    requires WellShaped(Only(ds, done)) && l in ds && l !in done && |ds[l]| % EmbeddingSize == 0
    ensures WellShaped(Only(ds, done + {l}))
    ensures var prev := Restored(cls, Only(ds, done));
            Restored(cls, Only(ds, done + {l})) == prev[l := ExamplesOf(prev, l) + Unflatten(ds[l])]
  {
    OnlyAdd(ds, done, l);
    RestoredAdd(cls, Only(ds, done), l, ds[l]);
  }
}
