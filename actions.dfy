/** The server action `getRentalPrediction` and the mock detector it calls
    (src/app/actions.ts). The detector's `Math.random()` calls read a
    stream of draws in [0, 1); the two Genkit flows are parameters that
    resolve to an output or reject with a thrown value. */
module Actions {
  import opened Types
  import opened SeqUtil
  import opened PricingDatabase
  import opened Pricing
  import opened MergeDetections

  /** Successive results of `Math.random()`: draw `n` is `rand(n)`. */
  ghost predicate RandomStream(rand: nat -> real) {
    forall n :: 0.0 <= rand(n) < 1.0
  }

  /** `Math.floor(u * 4) + 2`: two to five features per image. */
  function FeatureCount(u: real): (n: nat)
    requires 0.0 <= u < 1.0
    ensures 2 <= n <= 5
  {
    (u * 4.0).Floor + 2
  }

  /** `Math.floor(u * length)`: always a valid index. */
  function PickIndex(u: real, length: nat): (k: nat)
    requires 0.0 <= u < 1.0 && length > 0
    ensures k < length
  {
    ScaledBelow(u, length);
    (u * length as real).Floor
  }

  lemma ScaledBelow(u: real, length: nat)
    requires 0.0 <= u < 1.0 && length > 0
    ensures 0.0 <= u * length as real < length as real
  {
  }

  /** `Math.random() * (0.98 - 0.7) + 0.7`. */
  function Confidence(u: real): (c: real)
    requires 0.0 <= u < 1.0
    ensures 0.7 <= c < 0.98
  {
    u * (0.98 - 0.7) + 0.7
  }

  /** The detector's locals between iterations: the detections so far and
      the position of the next draw. */
  datatype DetectState = DetectState(detected: seq<ObjectDetection>, next: nat)

  /** One iteration: draw a pick; when its id is new, draw its confidence
      and push it, otherwise skip it. */
  function DetectStep(detectable: seq<Feature>, rand: nat -> real, s: DetectState): DetectState
    requires |detectable| > 0 && RandomStream(rand)
  {
    var feature := detectable[PickIndex(rand(s.next), |detectable|)];
    if feature.id in Labels(s.detected) then DetectState(s.detected, s.next + 1)
    else DetectState(s.detected + [ObjectDetection(feature.id, Confidence(rand(s.next + 1)))], s.next + 2)
  }

  /** The state after `i` iterations, the count having been drawn at `start`. */
  function Iterate(detectable: seq<Feature>, rand: nat -> real, start: nat, i: nat): DetectState
    requires |detectable| > 0 && RandomStream(rand)
  {
    if i == 0 then DetectState([], start + 1)
    else DetectStep(detectable, rand, Iterate(detectable, rand, start, i - 1))
  }

  /** `mockDetectObjectsInImage` for draws starting at `start`; `next` is
      past the draw for the simulated delay. */
  function MockDetection(detectable: seq<Feature>, rand: nat -> real, start: nat): DetectState
    requires |detectable| > 0 && RandomStream(rand)
  {
    var s := Iterate(detectable, rand, start, FeatureCount(rand(start)));
    DetectState(s.detected, s.next + 1)
  }

  /** What one image's detections look like: distinct labels of detectable
      features, each with a confidence in [0.7, 0.98). */
  predicate WellFormedDetections(detectable: seq<Feature>, ds: seq<ObjectDetection>) {
    && NoDup(Labels(ds))
    && (forall d :: d in ds ==> d.labelId in Ids(detectable) && 0.7 <= d.confidence < 0.98)
  }

  /** `mockDetectObjectsInImage`. The image itself is not read. */
  method MockDetectObjectsInImage(detectable: seq<Feature>, rand: nat -> real, start: nat)
    returns (detected: seq<ObjectDetection>, next: nat)
    requires |detectable| > 0 && RandomStream(rand)
    ensures DetectState(detected, next) == MockDetection(detectable, rand, start)
    ensures 1 <= |detected| <= 5 && WellFormedDetections(detectable, detected)
    ensures next > start
  {
    detected := [];
    var featureCount := FeatureCount(rand(start));
    next := start + 1;
    for i := 0 to featureCount
      invariant DetectState(detected, next) == Iterate(detectable, rand, start, i)
    {
      var randomFeature := detectable[PickIndex(rand(next), |detectable|)];
      if randomFeature.id !in Labels(detected) {
        detected := detected + [ObjectDetection(randomFeature.id, Confidence(rand(next + 1)))];
        next := next + 2;
      } else {
        next := next + 1;
      }
    }
    next := next + 1;
    IterateShape(detectable, rand, start, featureCount);
  }

  /** One iteration adds at most one detection, keeps the detections
      well formed, and moves past at least one draw. */
  lemma DetectStepShape(detectable: seq<Feature>, rand: nat -> real, s: DetectState)
    requires |detectable| > 0 && RandomStream(rand)
    requires WellFormedDetections(detectable, s.detected)
    ensures var t := DetectStep(detectable, rand, s);
      && |s.detected| <= |t.detected| <= |s.detected| + 1
      && (s.detected == [] ==> |t.detected| == 1)
      && WellFormedDetections(detectable, t.detected)
      && t.next > s.next
  {
    var k := PickIndex(rand(s.next), |detectable|);
    var feature := detectable[k];
    if feature.id !in Labels(s.detected) {
      var d := ObjectDetection(feature.id, Confidence(rand(s.next + 1)));
      assert Labels(s.detected + [d]) == Labels(s.detected) + [feature.id];
      assert Ids(detectable)[k] == feature.id;
    }
  }

  /** After `i` iterations there are at most `i` detections, at least one
      once an iteration has run (the first pick is always new), and they
      are well formed. */
  lemma {:induction false} IterateShape(detectable: seq<Feature>, rand: nat -> real, start: nat, i: nat)
    requires |detectable| > 0 && RandomStream(rand)
    ensures var s := Iterate(detectable, rand, start, i);
      && |s.detected| <= i && (i > 0 ==> |s.detected| >= 1)
      && WellFormedDetections(detectable, s.detected)
      && s.next > start
  {
    if i > 0 {
      IterateShape(detectable, rand, start, i - 1);
      DetectStepShape(detectable, rand, Iterate(detectable, rand, start, i - 1));
    }
  }

  /** `imageUris.map(mockDetectObjectsInImage)`: each call runs to its
      first `await` before the next starts, so the images consume the
      draws one after another. */
  function DetectAll(detectable: seq<Feature>, rand: nat -> real, start: nat, imageUris: seq<string>): (r: (seq<seq<ObjectDetection>>, nat))
    requires |detectable| > 0 && RandomStream(rand)
    ensures |r.0| == |imageUris|
    ensures forall k :: 0 <= k < |r.0| ==> 1 <= |r.0[k]| <= 5 && WellFormedDetections(detectable, r.0[k])
  {
    if imageUris == [] then ([], start)
    else
      var (groups, next) := DetectAll(detectable, rand, start, imageUris[..|imageUris| - 1]);
      var s := MockDetection(detectable, rand, next);
      IterateShape(detectable, rand, next, FeatureCount(rand(next)));
      (groups + [s.detected], s.next)
  }

  /** `Array.from(new Set([...detected, ...structural]))`. */
  function FinalFeatureIds(detectedFeatureIds: seq<string>, structuralFeatureIds: seq<string>): (ids: seq<string>)
    ensures NoDup(ids)
    ensures forall id :: id in ids <==> id in detectedFeatureIds || id in structuralFeatureIds
  {
    Dedupe(detectedFeatureIds + structuralFeatureIds)
  }

  /** A thrown value: an `Error` with a message, or anything else. */
  datatype Thrown = ErrorValue(message: string) | OtherValue

  /** How an awaited call ends. */
  datatype Outcome<T> = Resolved(value: T) | Rejected(reason: Thrown)

  /** The input and output of the explanation flow. */
  datatype ExplainInput = ExplainInput(
    detectedFeatures: seq<string>,
    estimatedRentRange: RentRange,
    pricingDetails: map<string, int>)

  datatype ExplainOutput = ExplainOutput(explanation: string)

  const FailurePrefix: string := "AI analysis failed. Details: "

  const UnknownError: string := "An unknown error occurred during analysis."

  function ErrorMessage(e: Thrown): string {
    match e
    case ErrorValue(m) => m
    case OtherValue => UnknownError
  }

  /** The `error` of the response for a thrown value. */
  function FailureMessage(e: Thrown): (r: string)
    ensures FailurePrefix <= r && |r| >= |FailurePrefix|
  {
    FailurePrefix + ErrorMessage(e)
  }

  /** The detections of every image, drawn from the start of the stream. */
  function Detections(imageUris: seq<string>, rand: nat -> real): (groups: seq<seq<ObjectDetection>>)
    requires RandomStream(rand)
    ensures |groups| == |imageUris|
    ensures forall k :: 0 <= k < |groups| ==> 1 <= |groups[k]| <= 5 && WellFormedDetections(DetectableFeatures, groups[k])
  {
    DetectableIsAllButStructural();
    DetectAll(DetectableFeatures, rand, 0, imageUris).0
  }

  /** The ids priced for a merge result. */
  function FinalIdsOf(structuralFeatureIds: seq<string>, mergeResult: MergeDetectionsOutput): seq<string> {
    FinalFeatureIds(Labels(mergeResult.mergedDetections), structuralFeatureIds)
  }

  /** What the explanation flow is asked. */
  function ExplainRequest(structuralFeatureIds: seq<string>, mergeResult: MergeDetectionsOutput): ExplainInput {
    var finalFeatureIds := FinalIdsOf(structuralFeatureIds, mergeResult);
    var rent := RentFor(PricingData, finalFeatureIds);
    ExplainInput(Names(Resolve(PricingData, finalFeatureIds)), rent.rentRange, rent.pricingDetails)
  }

  /** Everything after the merge: the final ids, the features they
      resolve to, the rent, and the explanation call. */
  function Finish(structuralFeatureIds: seq<string>, mergeResult: MergeDetectionsOutput,
                  explain: ExplainInput -> Outcome<ExplainOutput>): ServerActionResponse
  {
    var finalFeatureIds := FinalIdsOf(structuralFeatureIds, mergeResult);
    var rent := RentFor(PricingData, finalFeatureIds);
    match explain(ExplainRequest(structuralFeatureIds, mergeResult))
    case Rejected(e) => Error(FailureMessage(e))
    case Resolved(out) =>
      Data(PredictionResult(rent.rentRange, out.explanation, Resolve(PricingData, finalFeatureIds), rent.furnishingStatus))
  }

  /** `getRentalPrediction` as a function of its inputs, the draws and the
      two flows. */
  function Prediction(imageUris: seq<string>, structuralFeatureIds: seq<string>, rand: nat -> real,
                      merge: MergeDetectionsInput -> Outcome<MergeDetectionsOutput>,
                      explain: ExplainInput -> Outcome<ExplainOutput>): ServerActionResponse
    requires RandomStream(rand)
  {
    match merge(MergeDetectionsInput(Detections(imageUris, rand)))
    case Rejected(e) => Error(FailureMessage(e))
    case Resolved(mergeResult) => Finish(structuralFeatureIds, mergeResult, explain)
  }

  /** `getRentalPrediction`. */
  method GetRentalPrediction(imageUris: seq<string>, structuralFeatureIds: seq<string>, rand: nat -> real,
                             merge: MergeDetectionsInput -> Outcome<MergeDetectionsOutput>,
                             explain: ExplainInput -> Outcome<ExplainOutput>)
    returns (r: ServerActionResponse)
    requires RandomStream(rand)
    ensures r == Prediction(imageUris, structuralFeatureIds, rand, merge, explain)
  {
    DetectableIsAllButStructural();
    var allDetections: seq<seq<ObjectDetection>> := [];
    var next := 0;
    for i := 0 to |imageUris|
      invariant (allDetections, next) == DetectAll(DetectableFeatures, rand, 0, imageUris[..i])
    {
      assert imageUris[..i + 1][..i] == imageUris[..i];
      var detected;
      detected, next := MockDetectObjectsInImage(DetectableFeatures, rand, next);
      allDetections := allDetections + [detected];
    }
    assert imageUris[..|imageUris|] == imageUris;

    match merge(MergeDetectionsInput(allDetections)) {
      case Rejected(e) =>
        return Error(FailureMessage(e));
      case Resolved(mergeResult) =>
        var finalFeatureIds := FinalFeatureIds(Labels(mergeResult.mergedDetections), structuralFeatureIds);
        var detectedFeatures := Resolve(PricingData, finalFeatureIds);
        var rent := CalculateRent(PricingData, finalFeatureIds);
        match explain(ExplainInput(Names(detectedFeatures), rent.rentRange, rent.pricingDetails)) {
          case Rejected(e) =>
            return Error(FailureMessage(e));
          case Resolved(out) =>
            return Data(PredictionResult(rent.rentRange, out.explanation, detectedFeatures, rent.furnishingStatus));
        }
    }
  }

  // ----- Properties -----

  /** The response is an error exactly when one of the two flows rejects,
      and then it carries that rejection's message after the fixed prefix. */
  lemma ErrorResponses(imageUris: seq<string>, structuralFeatureIds: seq<string>, rand: nat -> real,
                       merge: MergeDetectionsInput -> Outcome<MergeDetectionsOutput>,
                       explain: ExplainInput -> Outcome<ExplainOutput>)
    requires RandomStream(rand)
    ensures var r := Prediction(imageUris, structuralFeatureIds, rand, merge, explain);
      var m := merge(MergeDetectionsInput(Detections(imageUris, rand)));
      && (m.Rejected? ==> r == Error(FailureMessage(m.reason)))
      && (m.Resolved? ==>
            var x := explain(ExplainRequest(structuralFeatureIds, m.value));
            (r.Error? <==> x.Rejected?) && (x.Rejected? ==> r == Error(FailureMessage(x.reason))))
      && (r.Error? ==> FailurePrefix <= r.error)
  {
  }

  /** Different messages give different responses: the detail is kept. */
  lemma FailureMessageKeepsDetail(a: Thrown, b: Thrown)
    ensures FailureMessage(a) == FailureMessage(b) <==> ErrorMessage(a) == ErrorMessage(b)
  {
    if FailureMessage(a) == FailureMessage(b) {
      assert ErrorMessage(a) == FailureMessage(a)[|FailurePrefix|..];
      assert ErrorMessage(b) == FailureMessage(b)[|FailurePrefix|..];
    }
  }

  /** When the detected labels are distinct (as the merge rule demands),
      the final list starts with them in the merge's order, and the
      structural ids follow. */
  lemma FinalIdsKeepDetectedFirst(detectedFeatureIds: seq<string>, structuralFeatureIds: seq<string>)
    requires NoDup(detectedFeatureIds)
    ensures detectedFeatureIds <= FinalFeatureIds(detectedFeatureIds, structuralFeatureIds)
  {
    DedupeExtends(detectedFeatureIds, structuralFeatureIds);
    DedupeOfNoDup(detectedFeatureIds);
  }

  /** On success the response lists each catalog item whose id was merged
      or confirmed, once, and nothing else; the rent is that of the final
      ids, and there is one pricing entry per listed feature. */
  lemma SuccessfulPrediction(imageUris: seq<string>, structuralFeatureIds: seq<string>, rand: nat -> real,
                             merge: MergeDetectionsInput -> Outcome<MergeDetectionsOutput>,
                             explain: ExplainInput -> Outcome<ExplainOutput>,
                             mergeResult: MergeDetectionsOutput)
    requires RandomStream(rand)
    requires merge(MergeDetectionsInput(Detections(imageUris, rand))) == Resolved(mergeResult)
    requires Prediction(imageUris, structuralFeatureIds, rand, merge, explain).Data?
    ensures var res := Prediction(imageUris, structuralFeatureIds, rand, merge, explain).data;
      var finalFeatureIds := FinalIdsOf(structuralFeatureIds, mergeResult);
      && NoDup(res.detectedFeatures)
      && (forall f :: f in res.detectedFeatures <==>
            f in AllFeatures && (f.id in Labels(mergeResult.mergedDetections) || f.id in structuralFeatureIds))
      && res.rentRange == RentFor(PricingData, finalFeatureIds).rentRange
      && res.furnishingStatus == Furnishing(|FurnitureIdsIn(PricingData, finalFeatureIds)|)
      && |RentFor(PricingData, finalFeatureIds).pricingDetails| == |res.detectedFeatures|
  {
    var finalFeatureIds := FinalIdsOf(structuralFeatureIds, mergeResult);
    PricingDataIsValid();
    ResolveNoDup(PricingData, finalFeatureIds);
    ResolveMembership(PricingData, finalFeatureIds);
    FurnitureCountIsDistinctFurniture(PricingData, finalFeatureIds);
    DetailsLoseNoEntry(PricingData, finalFeatureIds);
  }

  /** If the merge keeps to its rule, the final ids are exactly the labels
      detected in any image together with the confirmed structural ids. */
  lemma HonestMergeFinalIds(groups: seq<seq<ObjectDetection>>, mergeResult: MergeDetectionsOutput,
                            structuralFeatureIds: seq<string>)
    requires IsMergeOf(Flatten(groups), mergeResult.mergedDetections)
    ensures forall id :: id in FinalIdsOf(structuralFeatureIds, mergeResult) <==>
      (exists k :: 0 <= k < |groups| && id in Labels(groups[k])) || id in structuralFeatureIds
  {
    var merged := mergeResult.mergedDetections;
    forall id ensures id in Labels(merged) <==> exists k :: 0 <= k < |groups| && id in Labels(groups[k]) {
      if id in Labels(merged) {
        var i :| 0 <= i < |merged| && Labels(merged)[i] == id;
        FlattenMembership(groups, merged[i]);
        var k :| 0 <= k < |groups| && merged[i] in groups[k];
        var j :| 0 <= j < |groups[k]| && groups[k][j] == merged[i];
        assert Labels(groups[k])[j] == id;
      }
      if exists k :: 0 <= k < |groups| && id in Labels(groups[k]) {
        var k :| 0 <= k < |groups| && id in Labels(groups[k]);
        var j :| 0 <= j < |groups[k]| && Labels(groups[k])[j] == id;
        FlattenMembership(groups, groups[k][j]);
      }
    }
  }

  /** The detector never reports a structural feature. */
  lemma NoStructuralLabelDetected(imageUris: seq<string>, rand: nat -> real, g: Feature)
    requires RandomStream(rand) && g in StructuralItems
    ensures forall k :: 0 <= k < |Detections(imageUris, rand)| ==> g.id !in Labels(Detections(imageUris, rand)[k])
  {
    var groups := Detections(imageUris, rand);
    DetectableHasNoStructuralId();
    forall k, j | 0 <= k < |groups| && 0 <= j < |groups[k]| ensures Labels(groups[k])[j] != g.id {
      assert groups[k][j] in groups[k];
      var i :| 0 <= i < |DetectableFeatures| && Ids(DetectableFeatures)[i] == groups[k][j].labelId;
      assert DetectableFeatures[i] in DetectableFeatures;
    }
  }

  /** A structural feature is priced only when the user confirmed it,
      provided the merge keeps to its rule: the detector only reports
      non-structural features. Every confirmed catalog id is priced. */
  lemma StructuralOnlyIfConfirmed(imageUris: seq<string>, structuralFeatureIds: seq<string>, rand: nat -> real,
                                  merge: MergeDetectionsInput -> Outcome<MergeDetectionsOutput>,
                                  explain: ExplainInput -> Outcome<ExplainOutput>,
                                  mergeResult: MergeDetectionsOutput)
    requires RandomStream(rand)
    requires merge(MergeDetectionsInput(Detections(imageUris, rand))) == Resolved(mergeResult)
    requires IsMergeOf(Flatten(Detections(imageUris, rand)), mergeResult.mergedDetections)
    requires Prediction(imageUris, structuralFeatureIds, rand, merge, explain).Data?
    ensures var res := Prediction(imageUris, structuralFeatureIds, rand, merge, explain).data;
      && (forall f :: f in res.detectedFeatures && f in StructuralItems ==> f.id in structuralFeatureIds)
      && (forall f :: f in AllFeatures && f.id in structuralFeatureIds ==> f in res.detectedFeatures)
  {
    var groups := Detections(imageUris, rand);
    var res := Prediction(imageUris, structuralFeatureIds, rand, merge, explain).data;
    SuccessfulPrediction(imageUris, structuralFeatureIds, rand, merge, explain, mergeResult);
    HonestMergeFinalIds(groups, mergeResult, structuralFeatureIds);
    DetectableHasNoStructuralId();
    forall f | f in res.detectedFeatures && f in StructuralItems ensures f.id in structuralFeatureIds {
      NoStructuralLabelDetected(imageUris, rand, f);
    }
  }
}
