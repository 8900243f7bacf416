/** Post-processing of the two ML Kit detectors: mapping labels to hazard types,
    estimating likelihood and severity, merging the two hazard lists and classifying
    the outcome. The detectors themselves are inputs: each yields its labels or the
    exception it threw. */
module Detection {
  import opened Wrappers
  import opened Text
  import opened KotlinInt
  import opened RiskLevels
  import opened HazardTypes
  import opened Hazards
  import opened Lists
  import opened Assessments
  import opened RiskAssessment

  /** An image label: its text and its confidence (a `Float`, modelled as a real). */
  datatype Label = Label(text: string, confidence: real)

  /** A label of a detected object; its confidence may be absent. */
  datatype ObjectLabel = ObjectLabel(text: string, confidence: Option<real>)

  datatype DetectedObject = DetectedObject(labels: seq<ObjectLabel>)

  /** A thrown exception; only its nullable message is observable. */
  datatype Failure = Failure(message: Option<string>)

  /** What one detector's `process(image).await()` gives: its results, or the exception
      it threw before any result was seen. */
  datatype Outcome<T> = Completed(items: seq<T>) | Failed(error: Failure)

  /** `HazardDetectionResult`. */
  datatype HazardDetectionResult =
    | Success(hazards: seq<Hazard>)
    | Partial(hazards: seq<Hazard>, warning: string)
    | Error(exception: Failure, message: string)
    | NoHazardsDetected

  const ElectricalWords: seq<string> := ["wire", "cable", "electric", "plug"]
  const HeightWords: seq<string> := ["ladder", "height", "scaffold", "roof"]
  const MachineryWords: seq<string> := ["machine", "equipment", "tool", "motor"]
  const ChemicalWords: seq<string> := ["chemical", "bottle", "container", "barrel"]
  const FireWords: seq<string> := ["fire", "flame", "gas", "flammable"]
  const FloorWords: seq<string> := ["floor", "ground", "wet", "slippery"]
  const PpeWords: seq<string> := ["hard hat", "helmet", "glove", "safety"]

  /** The keyword groups in the order they are tried, with the type each one gives. */
  const KeywordGroups: seq<(seq<string>, HazardType)> := [
    (ElectricalWords, Electrical), (HeightWords, Height), (MachineryWords, Machinery),
    (ChemicalWords, Chemical), (FireWords, Fire), (FloorWords, SlipTripFall),
    (PpeWords, PpeMissing)]

  /** The types a label can map to; the other four are never detected. */
  const MappedTypes: set<HazardType> :=
    {Electrical, Height, Machinery, Chemical, Fire, SlipTripFall, PpeMissing}

  /** PPE keywords count only below this confidence. */
  const PpeConfidenceLimit: real := 0.7

  /** `mapLabelToHazard`: the lower-cased label is tested group by group; PPE keywords
      signal missing PPE only at low confidence. */
  function MapLabelToHazard(lbl: string, confidence: real): (r: Option<HazardType>)
    ensures r == Some(PpeMissing) ==> confidence < PpeConfidenceLimit
    ensures r.Some? ==> r.value in MappedTypes
  {
    var lower := Lowercase(lbl);
    if ContainsAny(lower, ElectricalWords) then Some(Electrical)
    else if ContainsAny(lower, HeightWords) then Some(Height)
    else if ContainsAny(lower, MachineryWords) then Some(Machinery)
    else if ContainsAny(lower, ChemicalWords) then Some(Chemical)
    else if ContainsAny(lower, FireWords) then Some(Fire)
    else if ContainsAny(lower, FloorWords) then Some(SlipTripFall)
    else if ContainsAny(lower, PpeWords) then
      (if confidence < PpeConfidenceLimit then Some(PpeMissing) else None)
    else None
  }

  /** `mapObjectToHazard`: an absent confidence counts as 0. */
  function MapObjectToHazard(lbl: string, confidence: Option<real>): (r: Option<HazardType>)
    ensures confidence.Some? ==> r == MapLabelToHazard(lbl, confidence.value)
    ensures confidence.None? ==> r == MapLabelToHazard(lbl, 0.0)
  {
    MapLabelToHazard(lbl, confidence.GetOr(0.0))
  }

  /** The first keyword group found in the lower-cased label decides the type. */
  lemma FirstGroupWins(lbl: string, confidence: real, k: int)
    requires 0 <= k < |KeywordGroups|
    requires ContainsAny(Lowercase(lbl), KeywordGroups[k].0)
    requires forall j :: 0 <= j < k ==> !ContainsAny(Lowercase(lbl), KeywordGroups[j].0)
    ensures MapLabelToHazard(lbl, confidence) ==
      if KeywordGroups[k].1 == PpeMissing && confidence >= PpeConfidenceLimit then None
      else Some(KeywordGroups[k].1)
  {
    assert forall j :: 0 <= j < k ==> !ContainsAny(Lowercase(lbl), KeywordGroups[j].0);
    if k >= 1 { assert !ContainsAny(Lowercase(lbl), ElectricalWords) by { assert KeywordGroups[0].0 == ElectricalWords; } }
    if k >= 2 { assert !ContainsAny(Lowercase(lbl), HeightWords) by { assert KeywordGroups[1].0 == HeightWords; } }
    if k >= 3 { assert !ContainsAny(Lowercase(lbl), MachineryWords) by { assert KeywordGroups[2].0 == MachineryWords; } }
    if k >= 4 { assert !ContainsAny(Lowercase(lbl), ChemicalWords) by { assert KeywordGroups[3].0 == ChemicalWords; } }
    if k >= 5 { assert !ContainsAny(Lowercase(lbl), FireWords) by { assert KeywordGroups[4].0 == FireWords; } }
    if k >= 6 { assert !ContainsAny(Lowercase(lbl), FloorWords) by { assert KeywordGroups[5].0 == FloorWords; } }
  }

  /** A label containing no keyword of any group maps to nothing. */
  lemma NoKeywordNoHazard(lbl: string, confidence: real)
    requires forall k :: 0 <= k < |KeywordGroups| ==> !ContainsAny(Lowercase(lbl), KeywordGroups[k].0)
    ensures MapLabelToHazard(lbl, confidence) == None
  {
    assert KeywordGroups[0].0 == ElectricalWords && KeywordGroups[1].0 == HeightWords;
    assert KeywordGroups[2].0 == MachineryWords && KeywordGroups[3].0 == ChemicalWords;
    assert KeywordGroups[4].0 == FireWords && KeywordGroups[5].0 == FloorWords;
    assert KeywordGroups[6].0 == PpeWords;
  }

  /** The mapping ignores the case of the label. */
  lemma MapLabelIgnoresCase(a: string, b: string, confidence: real)
    requires EqualsIgnoreCase(a, b)
    ensures MapLabelToHazard(a, confidence) == MapLabelToHazard(b, confidence)
  {
    LowercaseAgrees(a, b);
  }

  /** `estimateRiskFactors`, likelihood part: from the confidence alone. */
  function Likelihood(confidence: real): (r: int32)
    ensures 2 <= r <= 4
    ensures r == 4 <==> confidence > 0.8
    ensures r == 2 <==> confidence <= 0.6
  {
    if confidence > 0.8 then 4
    else if confidence > 0.6 then 3
    else 2
  }

  const SevereLabels: seq<string> := ["electrical", "fire", "height", "chemical"]
  const SeriousLabels: seq<string> := ["machinery", "confined space"]

  /** `estimateRiskFactors`, severity part: the whole lower-cased label is compared,
      not searched. */
  function Severity(lbl: string): (r: int32)
    ensures 2 <= r <= 4
    ensures r == 4 <==> Lowercase(lbl) in SevereLabels
    ensures r == 3 <==> Lowercase(lbl) in SeriousLabels
  {
    var lower := Lowercase(lbl);
    if lower in SevereLabels then 4
    else if lower in SeriousLabels then 3
    else 2
  }

  /** Severity ignores the case of the label. */
  lemma SeverityIgnoresCase(a: string, b: string)
    requires EqualsIgnoreCase(a, b)
    ensures Severity(a) == Severity(b)
  {
    LowercaseAgrees(a, b);
  }

  /** A hazard built from a label of the image labeller. */
  function LabelHazard(lbl: Label, t: HazardType): (h: Hazard)
    ensures h.hazardType == t && h.confidence == lbl.confidence
    ensures 2 <= h.likelihood <= 4 && 2 <= h.severity <= 4
  {
    Hazard(t, Likelihood(lbl.confidence), Severity(lbl.text), lbl.confidence,
      None, Some("Detected: " + lbl.text))
  }

  /** A hazard built from a label of a detected object. */
  function ObjectHazard(lbl: ObjectLabel, t: HazardType): (h: Hazard)
    ensures h.hazardType == t && h.confidence == lbl.confidence.GetOr(0.0)
    ensures 2 <= h.likelihood <= 4 && 2 <= h.severity <= 4
  {
    var confidence := lbl.confidence.GetOr(0.0);
    Hazard(t, Likelihood(confidence), Severity(lbl.text), confidence,
      Some("Object detected in image"), Some(lbl.text))
  }

  /** The hazards the labeller's labels give, in label order; a type may repeat. */
  function LabelerHazards(labels: seq<Label>): (r: seq<Hazard>)
    ensures |r| <= |labels|
  {
    if labels == [] then []
    else
      var n := |labels| - 1;
      var prefix := LabelerHazards(labels[..n]);
      match MapLabelToHazard(labels[n].text, labels[n].confidence)
      case Some(t) => prefix + [LabelHazard(labels[n], t)]
      case None => prefix
  }

  /** One object label: its hazard is added only when no hazard of that type is listed
      yet. */
  function AddObjectLabel(hazards: seq<Hazard>, lbl: ObjectLabel): (r: seq<Hazard>)
    ensures hazards <= r && |r| <= |hazards| + 1
  {
    match MapObjectToHazard(lbl.text, lbl.confidence)
    case Some(t) => AddIfNewType(hazards, ObjectHazard(lbl, t))
    case None => hazards
  }

  /** `if (!hazards.any { it.type == h.type }) hazards.add(h)`. */
  function AddIfNewType(hazards: seq<Hazard>, h: Hazard): (r: seq<Hazard>)
    ensures hazards <= r && |r| <= |hazards| + 1
    ensures h.hazardType in TypesOf(r)
  {
    if h.hazardType in TypesOf(hazards) then hazards else hazards + [h]
  }

  /** The object labels in order, each through `AddObjectLabel`. */
  function AddObjectLabels(hazards: seq<Hazard>, labels: seq<ObjectLabel>): (r: seq<Hazard>)
    ensures hazards <= r && |r| <= |hazards| + |labels|
  {
    if labels == [] then hazards
    else AddObjectLabel(AddObjectLabels(hazards, labels[..|labels| - 1]), labels[|labels| - 1])
  }

  /** Every label of every detected object, objects in order. */
  function AddObjects(hazards: seq<Hazard>, objects: seq<DetectedObject>): (r: seq<Hazard>)
    ensures hazards <= r
  {
    if objects == [] then hazards
    else AddObjectLabels(AddObjects(hazards, objects[..|objects| - 1]), objects[|objects| - 1].labels)
  }

  /** `distinctBy { it.type }`: the first hazard of each type, in list order. */
  function DistinctByType(hs: seq<Hazard>): (r: seq<Hazard>)
    ensures |r| <= |hs|
  {
    if hs == [] then []
    else
      var prefix := DistinctByType(hs[..|hs| - 1]);
      if hs[|hs| - 1].hazardType in TypesOf(prefix) then prefix else prefix + [hs[|hs| - 1]]
  }

  /** The merged, de-duplicated hazard list of one analysis. */
  function Detected(labeling: Outcome<Label>, objects: Outcome<DetectedObject>): (r: seq<Hazard>)
    ensures NoDuplicates(TypesOf(r))
  {
    var fromLabels := if labeling.Completed? then LabelerHazards(labeling.items) else [];
    var all := if objects.Completed? then AddObjects(fromLabels, objects.items) else fromLabels;
    DistinctByTypeUnique(all);
    DistinctByType(all)
  }

  const PartialWarning: string := "Partial analysis: one detection model encountered an error"

  /** What every failure message starts with. */
  const FailurePrefix: string := "ML analysis failed: "

  /** The message of a failed analysis; a null message prints as "null". */
  function FailureMessage(e: Failure): (r: string)
    ensures |r| >= |FailurePrefix| && r[..|FailurePrefix|] == FailurePrefix
    ensures e.message.Some? ==> r[|FailurePrefix|..] == e.message.value
    ensures e.message.None? ==> r[|FailurePrefix|..] == "null"
  {
    FailurePrefix + e.message.GetOr("null")
  }

  /** The outcome `analyzeImage` returns. */
  function Classify(labeling: Outcome<Label>, objects: Outcome<DetectedObject>): (r: HazardDetectionResult)
    ensures r.Error? <==> labeling.Failed? && objects.Failed?
    ensures r.Error? ==> r.exception == labeling.error
    ensures r.Partial? <==> (labeling.Failed? != objects.Failed?) && Detected(labeling, objects) != []
    ensures r.NoHazardsDetected? <==>
      !(labeling.Failed? && objects.Failed?) && Detected(labeling, objects) == []
    ensures r.Success? <==> labeling.Completed? && objects.Completed? && Detected(labeling, objects) != []
    ensures r.Success? || r.Partial? ==> r.hazards == Detected(labeling, objects)
  {
    var hazards := Detected(labeling, objects);
    if labeling.Failed? && objects.Failed? then Error(labeling.error, FailureMessage(labeling.error))
    else if (labeling.Failed? || objects.Failed?) && hazards != [] then Partial(hazards, PartialWarning)
    else if hazards == [] then NoHazardsDetected
    else Success(hazards)
  }

  /** `analyzeImage` after inference: the labeller's hazards are collected first, then
      each object label adds a hazard of a type not yet listed; the list is de-duplicated
      by type and the outcome classified. */
  method AnalyzeImage(labeling: Outcome<Label>, objects: Outcome<DetectedObject>)
    returns (result: HazardDetectionResult)
    ensures result == Classify(labeling, objects)
  {
    var hazards: seq<Hazard> := [];
    var labelingError: Option<Failure> := None;
    var objectError: Option<Failure> := None;

    match labeling {
      case Failed(e) =>
        labelingError := Some(e);
      case Completed(labels) =>
        for i := 0 to |labels|
          invariant hazards == LabelerHazards(labels[..i])
        {
          assert labels[..i + 1][..i] == labels[..i];
          var lbl := labels[i];
          var hazardType := MapLabelToHazard(lbl.text, lbl.confidence);
          if hazardType.Some? {
            hazards := hazards + [LabelHazard(lbl, hazardType.value)];
          }
        }
        assert labels[..|labels|] == labels;
    }
    ghost var fromLabels := hazards;
    assert fromLabels == if labeling.Completed? then LabelerHazards(labeling.items) else [];

    match objects {
      case Failed(e) =>
        objectError := Some(e);
      case Completed(objs) =>
        for i := 0 to |objs|
          invariant hazards == AddObjects(fromLabels, objs[..i])
        {
          assert objs[..i + 1][..i] == objs[..i];
          hazards := AddLabelsOf(hazards, objs[i].labels);
        }
        assert objs[..|objs|] == objs;
    }
    assert hazards == if objects.Completed? then AddObjects(fromLabels, objects.items) else fromLabels;

    var distinctHazards := DistinctByType(hazards);
    assert distinctHazards == Detected(labeling, objects);

    if labelingError.Some? && objectError.Some? {
      result := Error(labelingError.value, FailureMessage(labelingError.value));
    } else if (labelingError.Some? || objectError.Some?) && distinctHazards != [] {
      result := Partial(distinctHazards, PartialWarning);
    } else if distinctHazards == [] {
      result := NoHazardsDetected;
    } else {
      result := Success(distinctHazards);
    }
  }

  /** The inner loop of `analyzeImage` over one detected object's labels. */
  method AddLabelsOf(hazards: seq<Hazard>, labels: seq<ObjectLabel>) returns (r: seq<Hazard>)
    ensures r == AddObjectLabels(hazards, labels)
  {
    r := hazards;
    for j := 0 to |labels|
      invariant r == AddObjectLabels(hazards, labels[..j])
    {
      assert labels[..j + 1][..j] == labels[..j];
      var lbl := labels[j];
      var hazardType := MapObjectToHazard(lbl.text, lbl.confidence);
      if hazardType.Some? && hazardType.value !in TypesOf(r) {
        r := r + [ObjectHazard(lbl, hazardType.value)];
      }
    }
    assert labels[..|labels|] == labels;
  }

  // ---- distinctBy { it.type } ----

  /** The types kept by `distinctBy` are the `distinct()` of the types. */
  lemma {:induction false} DistinctByTypeTypes(hs: seq<Hazard>)
    ensures TypesOf(DistinctByType(hs)) == Distinct(TypesOf(hs))
  {
    if hs != [] {
      var n := |hs| - 1;
      var prefix := DistinctByType(hs[..n]);
      DistinctByTypeTypes(hs[..n]);
      assert TypesOf(hs)[..n] == TypesOf(hs[..n]);
      assert TypesOf(prefix + [hs[n]]) == TypesOf(prefix) + [hs[n].hazardType];
    }
  }

  /** `distinctBy` never keeps two hazards of one type. */
  lemma DistinctByTypeUnique(hs: seq<Hazard>)
    ensures NoDuplicates(TypesOf(DistinctByType(hs)))
  {
    DistinctByTypeTypes(hs);
    DistinctNoDuplicates(TypesOf(hs));
  }

  /** Every hazard `distinctBy` keeps is the first hazard of its type in the input. */
  lemma {:induction false} DistinctByTypeKeepsFirst(hs: seq<Hazard>, i: int)
    requires 0 <= i < |DistinctByType(hs)|
    ensures DistinctByType(hs)[i].hazardType in TypesOf(hs)
    ensures DistinctByType(hs)[i] == hs[FirstIndex(TypesOf(hs), DistinctByType(hs)[i].hazardType)]
  {
    var n := |hs| - 1;
    var prefix := DistinctByType(hs[..n]);
    var t := DistinctByType(hs)[i].hazardType;
    assert TypesOf(hs)[..n] == TypesOf(hs[..n]);
    if i < |prefix| {
      assert DistinctByType(hs)[i] == prefix[i];
      DistinctByTypeKeepsFirst(hs[..n], i);
      FirstIndexOfPrefix(TypesOf(hs), n, t);
    } else {
      DistinctByTypeTypes(hs[..n]);
      DistinctMembers(TypesOf(hs[..n]), t);
      FirstIndexUnique(TypesOf(hs), t, n);
    }
  }

  // ---- merging the object detector's hazards ----

  /** Each hazard of `extra` has a type found neither in `base` nor earlier in `extra`. */
  predicate FreshTypes(base: seq<Hazard>, extra: seq<Hazard>)
    decreases |extra|
  {
    extra == [] ||
    (FreshTypes(base, extra[..|extra| - 1]) &&
     extra[|extra| - 1].hazardType !in TypesOf(base + extra[..|extra| - 1]))
  }

  lemma FreshTypesSnoc(base: seq<Hazard>, v: seq<Hazard>, x: Hazard)
    requires FreshTypes(base, v) && x.hazardType !in TypesOf(base + v)
    ensures FreshTypes(base, v + [x])
  {
    assert (v + [x])[..|v + [x]| - 1] == v;
  }

  /** One object label keeps the list an extension of `base` by fresh types. */
  lemma AddObjectLabelFresh(base: seq<Hazard>, hazards: seq<Hazard>, lbl: ObjectLabel)
    requires base <= hazards && FreshTypes(base, hazards[|base|..])
    ensures base <= AddObjectLabel(hazards, lbl)
    ensures FreshTypes(base, AddObjectLabel(hazards, lbl)[|base|..])
  {
    match MapObjectToHazard(lbl.text, lbl.confidence)
    case Some(t) => AddIfNewTypeFresh(base, hazards, ObjectHazard(lbl, t));
    case None =>
  }

  lemma AddIfNewTypeFresh(base: seq<Hazard>, hazards: seq<Hazard>, h: Hazard)
    requires base <= hazards && FreshTypes(base, hazards[|base|..])
    ensures base <= AddIfNewType(hazards, h)
    ensures FreshTypes(base, AddIfNewType(hazards, h)[|base|..])
  {
    if h.hazardType !in TypesOf(hazards) {
      var v := hazards[|base|..];
      assert base + v == hazards;
      FreshTypesSnoc(base, v, h);
      SuffixSnoc(hazards, h, |base|);
    }
  }

  lemma {:induction false} AddObjectLabelsFresh(base: seq<Hazard>, hazards: seq<Hazard>, labels: seq<ObjectLabel>)
    requires base <= hazards && FreshTypes(base, hazards[|base|..])
    ensures base <= AddObjectLabels(hazards, labels)
    ensures FreshTypes(base, AddObjectLabels(hazards, labels)[|base|..])
  {
    if labels != [] {
      var n := |labels| - 1;
      AddObjectLabelsFresh(base, hazards, labels[..n]);
      AddObjectLabelFresh(base, AddObjectLabels(hazards, labels[..n]), labels[n]);
    }
  }

  /** The object detector only appends to the labeller's list, and only hazards of
      types not listed before. */
  lemma {:induction false} AddObjectsFresh(base: seq<Hazard>, objects: seq<DetectedObject>)
    ensures base <= AddObjects(base, objects)
    ensures FreshTypes(base, AddObjects(base, objects)[|base|..])
  {
    if objects == [] {
      assert base[|base|..] == [];
    } else {
      var n := |objects| - 1;
      AddObjectsFresh(base, objects[..n]);
      AddObjectLabelsFresh(base, AddObjects(base, objects[..n]), objects[n].labels);
    }
  }

  /** `distinctBy` passes a block of fresh types through whole. */
  lemma {:induction false} DistinctByTypeAppendFresh(base: seq<Hazard>, extra: seq<Hazard>)
    requires FreshTypes(base, extra)
    ensures DistinctByType(base + extra) == DistinctByType(base) + extra
  {
    if extra == [] {
      assert base + extra == base;
    } else {
      var n := |extra| - 1;
      var v, x := extra[..n], extra[n];
      assert FreshTypes(base, v) && x.hazardType !in TypesOf(base + v);
      DistinctByTypeAppendFresh(base, v);
      DistinctByTypeSnocNew(base + v, x);
      AppendSnoc(base, extra);
      AppendSnoc(DistinctByType(base), extra);
    }
  }

  /** A hazard of a type not yet listed survives `distinctBy`. */
  lemma DistinctByTypeSnocNew(p: seq<Hazard>, x: Hazard)
    requires x.hazardType !in TypesOf(p)
    ensures DistinctByType(p + [x]) == DistinctByType(p) + [x]
  {
    DistinctByTypeTypes(p);
    DistinctMembers(TypesOf(p), x.hazardType);
    assert (p + [x])[..|p|] == p;
  }

  /** With both detectors done, the result lists the labeller's hazards (one per type,
      the first of each) first, then the object detector's, each of a new type. */
  lemma LabelerHazardsFirst(labels: seq<Label>, objects: seq<DetectedObject>)
    ensures var fromLabels := LabelerHazards(labels);
      var all := AddObjects(fromLabels, objects);
      fromLabels <= all &&
      Detected(Completed(labels), Completed(objects)) == DistinctByType(fromLabels) + all[|fromLabels|..] &&
      FreshTypes(fromLabels, all[|fromLabels|..])
  {
    var fromLabels := LabelerHazards(labels);
    var all := AddObjects(fromLabels, objects);
    AddObjectsFresh(fromLabels, objects);
    DistinctByTypeAppendFresh(fromLabels, all[|fromLabels|..]);
    assert fromLabels + all[|fromLabels|..] == all;
  }

  // ---- what a detected hazard can look like ----

  /** A hazard as the detector builds it: a mapped type, likelihood and severity 2..4. */
  predicate Plausible(h: Hazard) {
    h.hazardType in MappedTypes && 2 <= h.likelihood <= 4 && 2 <= h.severity <= 4
  }

  predicate AllPlausible(hs: seq<Hazard>) {
    forall i :: 0 <= i < |hs| ==> Plausible(hs[i])
  }

  lemma {:induction false} LabelerHazardsPlausible(labels: seq<Label>)
    ensures AllPlausible(LabelerHazards(labels))
  {
    if labels != [] {
      LabelerHazardsPlausible(labels[..|labels| - 1]);
    }
  }

  lemma {:induction false} AddObjectLabelsPlausible(hazards: seq<Hazard>, labels: seq<ObjectLabel>)
    requires AllPlausible(hazards)
    ensures AllPlausible(AddObjectLabels(hazards, labels))
  {
    if labels != [] {
      AddObjectLabelsPlausible(hazards, labels[..|labels| - 1]);
    }
  }

  lemma {:induction false} AddObjectsPlausible(hazards: seq<Hazard>, objects: seq<DetectedObject>)
    requires AllPlausible(hazards)
    ensures AllPlausible(AddObjects(hazards, objects))
  {
    if objects != [] {
      var n := |objects| - 1;
      AddObjectsPlausible(hazards, objects[..n]);
      AddObjectLabelsPlausible(AddObjects(hazards, objects[..n]), objects[n].labels);
    }
  }

  lemma DistinctByTypePlausible(hs: seq<Hazard>)
    requires AllPlausible(hs)
    ensures AllPlausible(DistinctByType(hs))
  {
    forall i | 0 <= i < |DistinctByType(hs)|
      ensures Plausible(DistinctByType(hs)[i])
    {
      DistinctByTypeKeepsFirst(hs, i);
    }
  }

  /** Whatever the detectors return, every hazard of the result is plausible. */
  lemma DetectedPlausible(labeling: Outcome<Label>, objects: Outcome<DetectedObject>)
    ensures AllPlausible(Detected(labeling, objects))
  {
    var fromLabels := if labeling.Completed? then LabelerHazards(labeling.items) else [];
    if labeling.Completed? {
      LabelerHazardsPlausible(labeling.items);
    }
    if objects.Completed? {
      AddObjectsPlausible(fromLabels, objects.items);
    }
    var all := if objects.Completed? then AddObjects(fromLabels, objects.items) else fromLabels;
    DistinctByTypePlausible(all);
  }

  /** Likelihood and severity in 2..4 score 4..16, so such a hazard is not EXTREME. */
  lemma PlausibleScore(h: Hazard)
    requires Plausible(h)
    ensures 4 <= h.RiskScore() <= 16 && h.Level() != Extreme
  {
    var l, s := h.likelihood as int, h.severity as int;
    ScoreOnMatrix(h);
    SmallProduct(l, s);
    FromScoreExtreme(l * s);
  }

  lemma SmallProduct(l: int, s: int)
    requires 2 <= l <= 4 && 2 <= s <= 4
    ensures 4 <= l * s <= 16
  {
    assert 2 * s <= l * s <= 4 * s;
  }

  /** Every detected hazard has one of the seven mapped types, likelihood and severity
      in 2..4, and so a score in 4..16: never EXTREME on its own. */
  lemma DetectedHazardBounds(labeling: Outcome<Label>, objects: Outcome<DetectedObject>, i: int)
    requires 0 <= i < |Detected(labeling, objects)|
    ensures var h := Detected(labeling, objects)[i];
      h.hazardType in MappedTypes &&
      2 <= h.likelihood <= 4 && 2 <= h.severity <= 4 &&
      4 <= h.RiskScore() <= 16 && h.Level() != Extreme
  {
    DetectedPlausible(labeling, objects);
    PlausibleScore(Detected(labeling, objects)[i]);
  }

  /** No hazard can score 20, so the overall level of a fresh analysis is never EXTREME. */
  lemma DetectedNeverExtreme(labeling: Outcome<Label>, objects: Outcome<DetectedObject>)
    ensures OverallRisk(Detected(labeling, objects)) != Extreme
  {
    var hs := Detected(labeling, objects);
    forall i | 0 <= i < |hs|
      ensures hs[i].Level() != Extreme && hs[i].RiskScore() < 20
    {
      DetectedHazardBounds(labeling, objects, i);
    }
    ExtremeRule(hs);
  }
}
