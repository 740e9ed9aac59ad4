/** The value types shared by the catalog, the pricing engine, the merge
    step and the page (src/lib/types.ts). All of them are immutable values. */
module Types {

  /** One priced room attribute. `basePrice` is a JavaScript number; every
      catalog price is a whole number, so it is an `int` here. */
  datatype Feature = Feature(id: string, name: string, basePrice: int, icon: string)

  datatype CategoryId = Furniture | Appliances | Structural | Quality

  datatype FeatureCategory = FeatureCategory(id: CategoryId, name: string, items: seq<Feature>)

  /** Both bounds are `Math.round(..) * 50`, hence whole numbers. */
  datatype RentRange = RentRange(lower: int, upper: int)

  datatype FurnishingStatus = Furnished | SemiFurnished | Unfurnished

  datatype PredictionResult = PredictionResult(
    rentRange: RentRange,
    explanation: string,
    detectedFeatures: seq<Feature>,
    furnishingStatus: FurnishingStatus)

  /** The server action's answer: exactly one of `data` and `error` is set. */
  datatype ServerActionResponse = Data(data: PredictionResult) | Error(error: string)

  /** A label with a confidence score; the schema puts no bound on the score.
      The source's field `label` is `labelId` here (`label` is a Dafny keyword);
      it is meant to be a catalog feature id, but nothing enforces that. */
  datatype ObjectDetection = ObjectDetection(labelId: string, confidence: real)

  function Labels(ds: seq<ObjectDetection>): (ls: seq<string>)
    ensures |ls| == |ds| && forall k :: 0 <= k < |ds| ==> ls[k] == ds[k].labelId
  {
    seq(|ds|, k requires 0 <= k < |ds| => ds[k].labelId)
  }
}
