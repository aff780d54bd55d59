/**
  The values the detector page works with: the class registry (`classes`),
  the nearest-neighbour classifier's stored examples, the record kept in
  browser storage, the result overlay, and the specification functions that
  say what saving and loading do to them.
 */
module Model {
  import opened Codec

  /** A prediction at or above this confidence is shown as a match. */
  const ConfidenceThreshold: real := 0.80

  datatype Option<T> = None | Some(value: T)

  /** One activation vector of the feature extractor. Its numeric content is
      opaque to the page; only its length matters to the storage layout. */
  type Embedding = v: seq<real> | |v| == EmbeddingSize witness seq(EmbeddingSize, _ => 0.0)

  /** An entry of `classes`: `{ name, examples }`. */
  datatype ClassInfo = ClassInfo(name: string, examples: nat)

  /** `classes`: label to entry. */
  type Registry = map<string, ClassInfo>

  /** What the classifier holds: for each label, its examples in the order
      they were added. The classifier reports as its number of classes the
      number of labels it holds. */
  type Examples = map<string, seq<Embedding>>

  /** The `dataset` part of the stored record: label to flat array. */
  type FlatDataset = map<string, seq<real>>

  /** The record kept under the storage key, after parsing: `{ classes, dataset }`. */
  datatype SavedModel = SavedModel(classes: Registry, dataset: FlatDataset)

  datatype Mode = Training | Recognition

  /** The CSS class of the result overlay beside `result-overlay`. */
  datatype Style = Neutral | NoModel | HighConfidence | LowConfidence

  /** The text of the result overlay: empty, the "train first" prompt, or a
      label with its confidence (rounding to a percentage is not modelled). */
  datatype OverlayText = Blank | TrainFirst | Showing(className: string, confidence: real)

  /** The text of the recognition status line. */
  datatype StatusText = Initial | NoTrainedClasses | Active | Last(className: string, confidence: real)

  /** What the classifier answers for one frame: the predicted label and the
      confidence it gives that label. */
  datatype Prediction = Prediction(className: string, confidence: real)

  /** The overlay style for a prediction: a match exactly when the confidence
      reaches the threshold, otherwise a weak match; never neutral or "no model". */
  function StyleFor(confidence: real): (s: Style)
    ensures s == HighConfidence <==> confidence >= ConfidenceThreshold
    ensures s == LowConfidence <==> confidence < ConfidenceThreshold
  {
    if confidence >= ConfidenceThreshold then HighConfidence else LowConfidence
  }

  /** The examples the classifier holds for a label; none when it does not know it. */
  function ExamplesOf(cls: Examples, className: string): seq<Embedding>
  {
    if className in cls then cls[className] else []
  }

  /** The registry agrees with the classifier: each entry is filed under its
      own name, each count is the number of examples stored for that label,
      and the classifier holds no label the registry lacks. */
  predicate Consistent(classes: Registry, cls: Examples)
  {
    && cls.Keys <= classes.Keys
    && forall l :: l in classes ==> classes[l].name == l && classes[l].examples == |ExamplesOf(cls, l)|
  }

  /** Registering a new label with no examples keeps the registry consistent. */
  lemma ConsistentAfterAdd(classes: Registry, cls: Examples, name: string)
    requires Consistent(classes, cls) && name !in classes
    ensures Consistent(classes[name := ClassInfo(name, 0)], cls)
  {
    assert name !in cls;
    assert ExamplesOf(cls, name) == [];
  }

  /** The `dataset` object saving builds: each label's matrix flattened row by
      row, `EmbeddingSize` entries per example. */
  function DatasetOf(cls: Examples): (ds: FlatDataset)
    ensures ds.Keys == cls.Keys
    ensures forall l :: l in ds ==> |ds[l]| == |cls[l]| * EmbeddingSize
  {
    assert forall l :: l in cls ==> |Flatten(cls[l])| == |cls[l]| * EmbeddingSize by {
      forall l | l in cls ensures |Flatten(cls[l])| == |cls[l]| * EmbeddingSize {
        assert AllRows(cls[l], EmbeddingSize);
      }
    }
    map l | l in cls :: Flatten(cls[l])
  }

  /** Every stored flat array can be cut into whole embeddings. */
  predicate WellShaped(ds: FlatDataset)
  {
    forall l :: l in ds ==> |ds[l]| % EmbeddingSize == 0
  }

  /** The embeddings a stored flat array holds, in order. */
  function Unflatten(flat: seq<real>): (es: seq<Embedding>)
    requires |flat| % EmbeddingSize == 0
    ensures |es| * EmbeddingSize == |flat|
    ensures Flatten(es) == flat
  {
    FlattenReshape(flat);
    Reshape(flat)
  }

  /** The part of a stored dataset under the given labels. */
  function Only(ds: FlatDataset, labels: set<string>): (r: FlatDataset)
    ensures r.Keys == ds.Keys * labels
    ensures forall l :: l in r ==> r[l] == ds[l]
  {
    map l | l in ds && l in labels :: ds[l]
  }

  /** The classifier after loading `ds` on top of `cls`: each stored label's
      reshaped examples are added after whatever the classifier already held
      for it; other labels keep theirs. */
  function Restored(cls: Examples, ds: FlatDataset): (r: Examples)
    requires WellShaped(ds)
    ensures r.Keys == cls.Keys + ds.Keys
    ensures forall l :: l in cls && l !in ds ==> r[l] == cls[l]
  {
    map l | l in cls.Keys + ds.Keys :: ExamplesOf(cls, l) + (if l in ds then Unflatten(ds[l]) else [])
  }

  /** Taking one more label of a dataset adds exactly that label's entry. */
  lemma OnlyAdd(ds: FlatDataset, labels: set<string>, l: string)
    requires l in ds && l !in labels
    ensures Only(ds, labels + {l}) == Only(ds, labels)[l := ds[l]]
  {
    var a, b := Only(ds, labels + {l}), Only(ds, labels)[l := ds[l]];
    assert a.Keys == b.Keys;
  }

  /** Loading a dataset with one more label gives the earlier result with that
      label's reshaped examples appended after whatever it held. */
  lemma RestoredAdd(cls: Examples, ds: FlatDataset, l: string, flat: seq<real>)
    requires WellShaped(ds) && l !in ds && |flat| % EmbeddingSize == 0
    ensures WellShaped(ds[l := flat])
    ensures var prev := Restored(cls, ds);
            Restored(cls, ds[l := flat]) == prev[l := ExamplesOf(prev, l) + Unflatten(flat)]
  {
    var after := ds[l := flat];
    assert WellShaped(after);
    var prev := Restored(cls, ds);
    var next := Restored(cls, after);
    var want := prev[l := ExamplesOf(prev, l) + Unflatten(flat)];
    forall k | k in next ensures k in want && next[k] == want[k] {
      RestoredAt(cls, after, k);
      if k != l {
        RestoredAt(cls, ds, k);
      }
    }
    assert next.Keys == want.Keys;
  }

  /** One entry of the loaded classifier: what the label held, then the
      embeddings of its stored array, if any. */
  lemma RestoredAt(cls: Examples, ds: FlatDataset, l: string)
    requires WellShaped(ds) && (l in cls || l in ds)
    ensures Restored(cls, ds)[l] == ExamplesOf(cls, l) + (if l in ds then Unflatten(ds[l]) else [])
  {
  }

  /** Loading a label adds as many examples as its flat array holds whole embeddings. */
  lemma RestoredCount(cls: Examples, ds: FlatDataset, l: string)
    requires WellShaped(ds) && l in ds
    ensures |Restored(cls, ds)[l]| * EmbeddingSize == |ExamplesOf(cls, l)| * EmbeddingSize + |ds[l]|
  {
    assert Restored(cls, ds)[l] == ExamplesOf(cls, l) + Unflatten(ds[l]);
  }

  /** Save followed by load into an empty classifier restores the classifier
      exactly: the same labels, and for each the same examples in the same
      order, component by component. */
  lemma SaveLoadRoundTrip(cls: Examples)
    ensures WellShaped(DatasetOf(cls))
    ensures Restored(map[], DatasetOf(cls)) == cls
  {
    var ds := DatasetOf(cls);
    forall l | l in ds ensures |ds[l]| % EmbeddingSize == 0 && Unflatten(ds[l]) == cls[l] {
      ReshapeFlatten(cls[l]);
    }
    var r := Restored(map[], ds);
    forall l | l in r ensures r[l] == cls[l] {
      assert ExamplesOf(map[], l) == [];
    }
  }

  /** Loading twice does not give what loading once gives: since loading adds
      to the classifier without clearing it, every stored example of a label
      ends up there twice. */
  lemma ReloadDuplicates(cls: Examples, ds: FlatDataset, l: string)
    requires WellShaped(ds) && l in ds && ds[l] != []
    ensures ExamplesOf(Restored(Restored(cls, ds), ds), l)
            == ExamplesOf(cls, l) + Unflatten(ds[l]) + Unflatten(ds[l])
    ensures Restored(Restored(cls, ds), ds) != Restored(cls, ds)
  {
    RestoredCount(cls, ds, l);
    RestoredCount(Restored(cls, ds), ds, l);
  }

  /** Loading trusts the stored counts: loading a record into an empty
      classifier leaves the registry consistent exactly when every stored
      label is registered under its own name with a count equal to the
      number of embeddings its flat array holds. */
  lemma LoadedConsistentIff(saved: SavedModel)
    requires WellShaped(saved.dataset)
    ensures Consistent(saved.classes, Restored(map[], saved.dataset)) <==>
            && saved.dataset.Keys <= saved.classes.Keys
            && forall l :: l in saved.classes ==>
                 && saved.classes[l].name == l
                 && saved.classes[l].examples * EmbeddingSize == (if l in saved.dataset then |saved.dataset[l]| else 0)
  {
    var r := Restored(map[], saved.dataset);
    forall l | l in saved.classes
      ensures (saved.classes[l].examples == |ExamplesOf(r, l)|) <==>
              saved.classes[l].examples * EmbeddingSize == (if l in saved.dataset then |saved.dataset[l]| else 0)
    {
      if l in saved.dataset {
        RestoredCount(map[], saved.dataset, l);
      }
    }
  }
}
