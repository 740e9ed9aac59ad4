/** The pricing engine: `calculateRent` in src/app/actions.ts. The catalog
    it reads (`ALL_FEATURES_MAP` and `PRICING_DATA`) is passed in as
    `catalog`; the server action passes `PricingData`. The source computes
    in binary floating point; here every quantity is exact (`1.2`, `1.5`
    and `0.05` are the rationals 6/5, 3/2 and 1/20), and `Math.round(x)` is
    `Floor(x + 1/2)`. */
module Pricing {
  import opened Types
  import opened Wrappers
  import opened SeqUtil
  import opened PricingDatabase

  /** The rent of an empty room. */
  const EmptyRoomRent: int := 500

  /** What `calculateRent` returns. `pricingDetails` is a record keyed by
      feature name. */
  datatype RentCalculation = RentCalculation(
    rentRange: RentRange,
    furnishingStatus: FurnishingStatus,
    pricingDetails: map<string, int>)

  /** The catalog items of the ids that resolve, in the order of the ids;
      unknown ids are skipped. */
  function Resolve(catalog: seq<FeatureCategory>, ids: seq<string>): (fs: seq<Feature>)
    ensures |fs| <= |ids|
  {
    if ids == [] then []
    else
      Resolve(catalog, ids[..|ids| - 1]) + match Lookup(catalog, ids[|ids| - 1]) {
        case Some(f) => [f]
        case None => []
      }
  }

  function PriceSum(fs: seq<Feature>): int {
    if fs == [] then 0 else PriceSum(fs[..|fs| - 1]) + fs[|fs| - 1].basePrice
  }

  /** `pricingDetails` after the loop: for every resolved id in turn, the
      entry under the feature's name is set to its base price. */
  function DetailsOf(catalog: seq<FeatureCategory>, ids: seq<string>): map<string, int> {
    if ids == [] then map[]
    else
      var m := DetailsOf(catalog, ids[..|ids| - 1]);
      match Lookup(catalog, ids[|ids| - 1]) {
        case Some(f) => m[f.name := f.basePrice]
        case None => m
      }
  }

  /** The id is one of the furniture category's item ids. */
  predicate IsFurnitureId(catalog: seq<FeatureCategory>, id: string) {
    id in Ids(CategoryItems(catalog, Furniture))
  }

  /** The number of furniture ids in the list; a repeated id counts each time. */
  function FurnitureCount(catalog: seq<FeatureCategory>, ids: seq<string>): (n: nat)
    ensures n <= |ids|
  {
    if ids == [] then 0
    else FurnitureCount(catalog, ids[..|ids| - 1]) + if IsFurnitureId(catalog, ids[|ids| - 1]) then 1 else 0
  }

  /** The furnishing status; the branches are tried in the source's order. */
  function Furnishing(furnitureItems: nat): (s: FurnishingStatus)
    ensures s == Furnished <==> furnitureItems > 3
    ensures s == SemiFurnished <==> 1 <= furnitureItems <= 3
    ensures s == Unfurnished <==> furnitureItems == 0
  {
    if furnitureItems > 3 then Furnished
    else if furnitureItems > 0 then SemiFurnished
    else Unfurnished
  }

  function Multiplier(s: FurnishingStatus): real {
    match s
    case Furnished => 1.5
    case SemiFurnished => 1.2
    case Unfurnished => 1.0
  }

  /** The point estimate: the base rent scaled by the furnishing multiplier. */
  function FinalRent(baseRent: int, s: FurnishingStatus): real {
    baseRent as real * Multiplier(s)
  }

  function Max(a: real, b: real): real {
    if a >= b then a else b
  }

  /** JavaScript's `Math.round`: the nearest integer, halves rounded up. */
  function Round(x: real): (n: int)
    ensures x - 0.5 < n as real <= x + 0.5
  {
    (x + 0.5).Floor
  }

  /** The range around a point estimate: an offset of at least 100 (5% of
      the estimate when that is larger) on each side, both ends rounded to
      the nearest multiple of 50. */
  function RangeAround(finalRent: real): RentRange {
    var rangeOffset := Max(100.0, finalRent * 0.05);
    RentRange(Round((finalRent - rangeOffset) / 50.0) * 50, Round((finalRent + rangeOffset) / 50.0) * 50)
  }

  function BaseRent(catalog: seq<FeatureCategory>, ids: seq<string>): int {
    EmptyRoomRent + PriceSum(Resolve(catalog, ids))
  }

  function StatusFor(catalog: seq<FeatureCategory>, ids: seq<string>): FurnishingStatus {
    Furnishing(FurnitureCount(catalog, ids))
  }

  /** The point estimate for a list of ids. */
  function EstimatedRent(catalog: seq<FeatureCategory>, ids: seq<string>): real {
    FinalRent(BaseRent(catalog, ids), StatusFor(catalog, ids))
  }

  /** The whole of `calculateRent` as one function of the ids. */
  function RentFor(catalog: seq<FeatureCategory>, ids: seq<string>): RentCalculation {
    RentCalculation(RangeAround(EstimatedRent(catalog, ids)), StatusFor(catalog, ids), DetailsOf(catalog, ids))
  }

  /** `calculateRent`: sums the prices of the resolved ids into the base
      rent while filling `pricingDetails`, then classifies and rounds. */
  method CalculateRent(catalog: seq<FeatureCategory>, featureIds: seq<string>) returns (c: RentCalculation)
    ensures c == RentFor(catalog, featureIds)
  {
    var baseRent := EmptyRoomRent;
    var pricingDetails: map<string, int> := map[];
    var i := 0;
    while i < |featureIds|
      invariant 0 <= i <= |featureIds|
      invariant baseRent == BaseRent(catalog, featureIds[..i])
      invariant pricingDetails == DetailsOf(catalog, featureIds[..i])
    {
      ResolveStep(catalog, featureIds, i);
      match Lookup(catalog, featureIds[i]) {
        case Some(feature) =>
          baseRent := baseRent + feature.basePrice;
          pricingDetails := pricingDetails[feature.name := feature.basePrice];
        case None =>
      }
      i := i + 1;
    }
    assert featureIds[..i] == featureIds;

    var furnitureItems := FurnitureCount(catalog, featureIds);
    var furnishingStatus: FurnishingStatus;
    var multiplier := 1.0;
    if furnitureItems > 3 {
      furnishingStatus := Furnished;
      multiplier := 1.5;
    } else if furnitureItems > 0 {
      furnishingStatus := SemiFurnished;
      multiplier := 1.2;
    } else {
      furnishingStatus := Unfurnished;
    }

    var finalRent := baseRent as real * multiplier;
    RentForOfParts(catalog, featureIds, baseRent, furnishingStatus, multiplier, pricingDetails);
    c := RentCalculation(RangeAround(finalRent), furnishingStatus, pricingDetails);
  }

  // ----- Properties -----

  /** The range `calculateRent` returns has both ends on multiples of 50,
      is at least 200 wide, and strictly contains the point estimate. */
  lemma RentForBrackets(catalog: seq<FeatureCategory>, ids: seq<string>)
    ensures RentFor(catalog, ids).rentRange.lower % 50 == 0 && RentFor(catalog, ids).rentRange.upper % 50 == 0
    ensures RentFor(catalog, ids).rentRange.upper - RentFor(catalog, ids).rentRange.lower >= 200
    ensures RentFor(catalog, ids).rentRange.lower as real < EstimatedRent(catalog, ids)
                                                          < RentFor(catalog, ids).rentRange.upper as real
  {
    RangeAroundBrackets(EstimatedRent(catalog, ids));
  }

  /** `RentFor` from the quantities the loop and the branches compute. */
  lemma RentForOfParts(catalog: seq<FeatureCategory>, ids: seq<string>, baseRent: int,
                       status: FurnishingStatus, multiplier: real, details: map<string, int>)
    requires baseRent == BaseRent(catalog, ids) && details == DetailsOf(catalog, ids)
    requires status == StatusFor(catalog, ids) && multiplier == Multiplier(status)
    ensures RentCalculation(RangeAround(baseRent as real * multiplier), status, details) == RentFor(catalog, ids)
  {
    assert Multiplier(StatusFor(catalog, ids)) == multiplier;
    assert EstimatedRent(catalog, ids) == baseRent as real * multiplier;
  }

  /** One more id adds its catalog item, if any, to the base rent and the details. */
  lemma ResolveStep(catalog: seq<FeatureCategory>, ids: seq<string>, i: nat)
    requires i < |ids|
    ensures BaseRent(catalog, ids[..i + 1]) == BaseRent(catalog, ids[..i])
      + match Lookup(catalog, ids[i]) { case Some(f) => f.basePrice case None => 0 }
    ensures DetailsOf(catalog, ids[..i + 1]) == match Lookup(catalog, ids[i]) {
      case Some(f) => DetailsOf(catalog, ids[..i])[f.name := f.basePrice]
      case None => DetailsOf(catalog, ids[..i]) }
  {
    assert ids[..i + 1][..i] == ids[..i];
    match Lookup(catalog, ids[i]) {
      case Some(f) =>
        assert Resolve(catalog, ids[..i + 1]) == Resolve(catalog, ids[..i]) + [f];
        PriceSumAppend(Resolve(catalog, ids[..i]), [f]);
      case None =>
        assert Resolve(catalog, ids[..i + 1]) == Resolve(catalog, ids[..i]);
    }
  }

  lemma {:induction false} PriceSumAppend(fs: seq<Feature>, gs: seq<Feature>)
    ensures PriceSum(fs + gs) == PriceSum(fs) + PriceSum(gs)
  {
    if gs == [] {
      assert fs + gs == fs;
    } else {
      PriceSumAppend(fs, gs[..|gs| - 1]);
      assert (fs + gs)[..|fs + gs| - 1] == fs + gs[..|gs| - 1];
      assert (fs + gs)[|fs + gs| - 1] == gs[|gs| - 1];
    }
  }

  /** Both ends are multiples of 50; the lower end is the multiple of 50
      nearest to `finalRent - offset` and the upper end the one nearest to
      `finalRent + offset`, halves going up; the range is at least 200 wide
      and the point estimate lies at least 75 inside it. */
  lemma RangeAroundBrackets(finalRent: real)
    ensures var r := RangeAround(finalRent);
      && r.lower % 50 == 0 && r.upper % 50 == 0
      && r.upper - r.lower >= 200
      && r.lower as real <= finalRent - 75.0
      && r.upper as real > finalRent + 75.0
    ensures var off := Max(100.0, finalRent * 0.05); var r := RangeAround(finalRent);
      && finalRent - off - 25.0 < r.lower as real <= finalRent - off + 25.0
      && finalRent + off - 25.0 < r.upper as real <= finalRent + off + 25.0
  {
    var off := Max(100.0, finalRent * 0.05);
    var a := (finalRent - off) / 50.0;
    var b := (finalRent + off) / 50.0;
    assert b - a >= 4.0;
    var lo := Round(a);
    var hi := Round(b);
    assert hi > lo + 3;
  }

  /** Every resolved feature is the catalog item of one of the ids. */
  lemma {:induction false} ResolvedAreCatalogItems(catalog: seq<FeatureCategory>, ids: seq<string>)
    ensures forall f :: f in Resolve(catalog, ids) ==>
      f in Items(catalog) && f.id in ids && Lookup(catalog, f.id) == Some(f)
  {
    if ids != [] {
      var init := ids[..|ids| - 1];
      ResolvedAreCatalogItems(catalog, init);
      assert ids == init + [ids[|ids| - 1]];
    }
  }

  lemma FiftiesAdd(a: int, b: int)
    requires a % 50 == 0 && b % 50 == 0
    ensures (a + b) % 50 == 0
  {
  }

  /** In a valid catalog an item is resolved exactly when its id is listed. */
  lemma {:induction false} ResolveMembership(catalog: seq<FeatureCategory>, ids: seq<string>)
    requires ValidCatalog(catalog)
    ensures forall f :: f in Resolve(catalog, ids) <==> f in Items(catalog) && f.id in ids
  {
    if ids != [] {
      var init := ids[..|ids| - 1];
      var last := ids[|ids| - 1];
      ResolveMembership(catalog, init);
      assert ids == init + [last];
      forall f | f in Items(catalog) && f.id in ids ensures f in Resolve(catalog, ids) {
        LookupFindsItem(catalog, f);
      }
    }
  }

  /** Distinct ids resolve to distinct items. */
  lemma {:induction false} ResolveNoDup(catalog: seq<FeatureCategory>, ids: seq<string>)
    requires NoDup(ids)
    ensures NoDup(Resolve(catalog, ids))
  {
    if ids != [] {
      var init := ids[..|ids| - 1];
      var last := ids[|ids| - 1];
      assert NoDup(init);
      ResolveNoDup(catalog, init);
      match Lookup(catalog, last) {
        case Some(f) =>
          assert ids == init + [last];
          assert last !in init;
          ResolvedAreCatalogItems(catalog, init);
          NoDupConcat(Resolve(catalog, init), [f]);
        case None =>
          assert Resolve(catalog, ids) == Resolve(catalog, init);
      }
    }
  }

  /** A sum of prices that are non-negative multiples of 50 is one too. */
  lemma {:induction false} PriceSumInFifties(fs: seq<Feature>)
    requires forall f :: f in fs ==> f.basePrice >= 0 && f.basePrice % 50 == 0
    ensures PriceSum(fs) >= 0 && PriceSum(fs) % 50 == 0
  {
    if fs != [] {
      var init := fs[..|fs| - 1];
      assert forall f :: f in init ==> f in fs;
      PriceSumInFifties(init);
      FiftiesAdd(PriceSum(init), fs[|fs| - 1].basePrice);
    }
  }

  /** In a valid catalog the base rent is 500 plus a non-negative multiple
      of 50: the prices of the resolved ids. */
  lemma ResolvedPriceInFifties(catalog: seq<FeatureCategory>, ids: seq<string>)
    requires ValidCatalog(catalog)
    ensures PriceSum(Resolve(catalog, ids)) >= 0 && PriceSum(Resolve(catalog, ids)) % 50 == 0
  {
    ResolvedAreCatalogItems(catalog, ids);
    forall f | f in Resolve(catalog, ids) ensures f.basePrice >= 0 && f.basePrice % 50 == 0 {
      ItemPriceInFifties(catalog, f);
    }
    PriceSumInFifties(Resolve(catalog, ids));
  }

  /** The point estimate is never below the empty-room rent. */
  lemma EstimateAtLeastEmptyRoom(catalog: seq<FeatureCategory>, ids: seq<string>)
    requires ValidCatalog(catalog)
    ensures EstimatedRent(catalog, ids) >= EmptyRoomRent as real
  {
    ResolvedPriceInFifties(catalog, ids);
  }

  /** In a valid catalog `pricingDetails` holds exactly the names of the
      resolved features, each with its own base price. */
  lemma {:induction false} DetailsAreResolvedPrices(catalog: seq<FeatureCategory>, ids: seq<string>)
    requires ValidCatalog(catalog)
    ensures DetailsOf(catalog, ids).Keys == set f | f in Resolve(catalog, ids) :: f.name
    ensures forall f :: f in Resolve(catalog, ids) ==> DetailsOf(catalog, ids)[f.name] == f.basePrice
  {
    if ids != [] {
      var init := ids[..|ids| - 1];
      DetailsAreResolvedPrices(catalog, init);
      ResolvedAreCatalogItems(catalog, init);
      match Lookup(catalog, ids[|ids| - 1]) {
        case Some(f) =>
          assert Resolve(catalog, ids) == Resolve(catalog, init) + [f];
          forall g | g in Resolve(catalog, init) && g.name == f.name ensures g == f {
            SameNameSameItem(catalog, f, g);
          }
        case None =>
          assert Resolve(catalog, ids) == Resolve(catalog, init);
      }
    }
  }

  /** For a duplicate-free id list over a valid catalog, keying by name
      loses no entry: one `pricingDetails` entry per resolved feature. */
  lemma {:induction false} DetailsLoseNoEntry(catalog: seq<FeatureCategory>, ids: seq<string>)
    requires ValidCatalog(catalog) && NoDup(ids)
    ensures |DetailsOf(catalog, ids)| == |Resolve(catalog, ids)|
  {
    if ids != [] {
      var init := ids[..|ids| - 1];
      var last := ids[|ids| - 1];
      assert NoDup(init);
      DetailsLoseNoEntry(catalog, init);
      match Lookup(catalog, last) {
        case Some(f) =>
          assert Resolve(catalog, ids) == Resolve(catalog, init) + [f];
          assert DetailsOf(catalog, ids) == DetailsOf(catalog, init)[f.name := f.basePrice];
          assert ids == init + [last];
          NewNameIsFresh(catalog, init, f);
        case None =>
          assert Resolve(catalog, ids) == Resolve(catalog, init);
      }
    }
  }

  /** A catalog item whose id is not among `ids` adds a name that the
      details of `ids` do not hold yet. */
  lemma NewNameIsFresh(catalog: seq<FeatureCategory>, ids: seq<string>, f: Feature)
    requires ValidCatalog(catalog) && f in Items(catalog) && f.id !in ids
    ensures f.name !in DetailsOf(catalog, ids)
  {
    DetailsAreResolvedPrices(catalog, ids);
    ResolvedAreCatalogItems(catalog, ids);
    forall g | g in Resolve(catalog, ids) ensures g.name != f.name {
      DistinctItemsDistinctNames(catalog, f, g);
    }
  }

  /** Every furniture id names a catalog item. */
  lemma FurnitureIdsAreKnown(catalog: seq<FeatureCategory>, id: string)
    requires IsFurnitureId(catalog, id)
    ensures Lookup(catalog, id).Some?
  {
    CategoryItemsAreItems(catalog, Furniture);
    var items := CategoryItems(catalog, Furniture);
    var k :| 0 <= k < |items| && Ids(items)[k] == id;
    assert items[k] in items;
    var all := Items(catalog);
    var j :| 0 <= j < |all| && all[j] == items[k];
    assert Ids(all)[j] == id;
  }

  lemma {:induction false} UnknownIdIgnoredParts(catalog: seq<FeatureCategory>, a: seq<string>, id: string, b: seq<string>)
    requires Lookup(catalog, id).None?
    ensures Resolve(catalog, a + [id] + b) == Resolve(catalog, a + b)
    ensures DetailsOf(catalog, a + [id] + b) == DetailsOf(catalog, a + b)
    ensures FurnitureCount(catalog, a + [id] + b) == FurnitureCount(catalog, a + b)
  {
    if b == [] {
      assert a + [id] + b == a + [id];
      assert (a + [id])[..|a|] == a;
      assert a + b == a;
      if IsFurnitureId(catalog, id) {
        FurnitureIdsAreKnown(catalog, id);
      }
    } else {
      var b' := b[..|b| - 1];
      UnknownIdIgnoredParts(catalog, a, id, b');
      assert (a + [id] + b)[..|a + [id] + b| - 1] == a + [id] + b';
      assert (a + b)[..|a + b| - 1] == a + b';
      assert (a + [id] + b)[|a + [id] + b| - 1] == (a + b)[|a + b| - 1];
    }
  }

  /** An id that is not in the catalog changes nothing: not the base rent,
      not `pricingDetails`, not the furniture count, wherever it stands. */
  lemma UnknownIdDoesNotChangeRent(catalog: seq<FeatureCategory>, a: seq<string>, id: string, b: seq<string>)
    requires Lookup(catalog, id).None?
    ensures RentFor(catalog, a + [id] + b) == RentFor(catalog, a + b)
  {
    UnknownIdIgnoredParts(catalog, a, id, b);
  }

  /** The furniture ids present in a list. */
  function FurnitureIdsIn(catalog: seq<FeatureCategory>, ids: seq<string>): set<string> {
    set id | id in ids && IsFurnitureId(catalog, id)
  }

  /** Without repeated ids, the furniture count is the number of distinct
      furniture ids present. */
  lemma {:induction false} FurnitureCountIsDistinctFurniture(catalog: seq<FeatureCategory>, ids: seq<string>)
    requires NoDup(ids)
    ensures FurnitureCount(catalog, ids) == |FurnitureIdsIn(catalog, ids)|
  {
    if ids != [] {
      var init := ids[..|ids| - 1];
      var last := ids[|ids| - 1];
      assert NoDup(init);
      FurnitureCountIsDistinctFurniture(catalog, init);
      assert ids == init + [last];
      assert last !in init;
      if IsFurnitureId(catalog, last) {
        assert FurnitureIdsIn(catalog, ids) == FurnitureIdsIn(catalog, init) + {last};
      } else {
        assert FurnitureIdsIn(catalog, ids) == FurnitureIdsIn(catalog, init);
      }
    }
  }

  /** Without repeated ids, no more furniture is counted than the furniture
      category has items. */
  lemma FurnitureCountBounded(catalog: seq<FeatureCategory>, ids: seq<string>)
    requires NoDup(ids)
    ensures FurnitureCount(catalog, ids) <= |CategoryItems(catalog, Furniture)|
  {
    var furnitureIds := Ids(CategoryItems(catalog, Furniture));
    FurnitureCountIsDistinctFurniture(catalog, ids);
    assert FurnitureIdsIn(catalog, ids) <= set id | id in furnitureIds;
    SetSizeBound(FurnitureIdsIn(catalog, ids), set id | id in furnitureIds);
    ElementsBound(furnitureIds);
  }

  lemma SetSizeBound(s: set<string>, t: set<string>)
    requires s <= t
    ensures |s| <= |t|
  {
    assert t == s + (t - s);
  }

  // ----- Properties of PRICING_DATA -----

  /** The furniture ids of `PRICING_DATA` are the five pieces of furniture. */
  lemma FurnitureIdsAreTheFive(id: string)
    ensures IsFurnitureId(PricingData, id) <==> id in ["bed", "chair", "table", "desk", "almirah"]
  {
    FurnitureHasFiveItems();
  }

  /** With no duplicate ids, at most five furniture items are counted. */
  lemma FurnitureCountAtMostFive(ids: seq<string>)
    requires NoDup(ids)
    ensures FurnitureCount(PricingData, ids) <= 5
  {
    FurnitureHasFiveItems();
    FurnitureCountBounded(PricingData, ids);
  }

  lemma ExampleLookups()
    ensures Lookup(PricingData, "bed") == Some(FurnitureItems[0])
    ensures Lookup(PricingData, "fan") == Some(ApplianceItems[0])
    ensures Lookup(PricingData, "balcony") == Some(StructuralItems[2])
  {
    PricingDataIsValid();
    AllFeaturesInCategoryOrder();
    assert AllFeatures[0] == FurnitureItems[0] && AllFeatures[5] == ApplianceItems[0];
    assert AllFeatures[10] == StructuralItems[2];
    LookupFindsItem(PricingData, FurnitureItems[0]);
    LookupFindsItem(PricingData, ApplianceItems[0]);
    LookupFindsItem(PricingData, StructuralItems[2]);
  }

  lemma ExampleResolves()
    ensures Resolve(PricingData, ["bed", "fan", "balcony"])
         == [FurnitureItems[0], ApplianceItems[0], StructuralItems[2]]
  {
    ExampleLookups();
    var ids := ["bed", "fan", "balcony"];
    assert ids[..2] == ["bed", "fan"] && ids[..2][..1] == ["bed"] && ids[..1][..0] == [];
    assert Resolve(PricingData, ["bed"]) == [FurnitureItems[0]];
    assert Resolve(PricingData, ["bed", "fan"]) == [FurnitureItems[0], ApplianceItems[0]];
  }

  lemma ExampleDetails()
    ensures DetailsOf(PricingData, ["bed", "fan", "balcony"])
         == map["Bed" := 800, "Fan" := 150, "Balcony" := 500]
  {
    ExampleLookups();
    var ids := ["bed", "fan", "balcony"];
    assert ids[..2] == ["bed", "fan"] && ids[..2][..1] == ["bed"] && ids[..1][..0] == [];
    assert DetailsOf(PricingData, ["bed"]) == map["Bed" := 800];
    assert DetailsOf(PricingData, ["bed", "fan"]) == map["Bed" := 800, "Fan" := 150];
  }

  lemma ExampleFurnitureCount()
    ensures FurnitureCount(PricingData, ["bed", "fan", "balcony"]) == 1
  {
    var ids := ["bed", "fan", "balcony"];
    FurnitureIdsAreTheFive("bed");
    FurnitureIdsAreTheFive("fan");
    FurnitureIdsAreTheFive("balcony");
    assert ids[..2] == ["bed", "fan"] && ids[..2][..1] == ["bed"] && ids[..1][..0] == [];
    assert FurnitureCount(PricingData, ["bed"]) == 1;
    assert FurnitureCount(PricingData, ["bed", "fan"]) == 1;
  }

  lemma ExampleBaseRent()
    ensures BaseRent(PricingData, ["bed", "fan", "balcony"]) == 1950
  {
    ExampleResolves();
    var fs := [FurnitureItems[0], ApplianceItems[0], StructuralItems[2]];
    var f2 := [FurnitureItems[0], ApplianceItems[0]];
    assert fs[..2] == f2 && f2[..1] == [FurnitureItems[0]] && [FurnitureItems[0]][..0] == [];
    assert PriceSum([FurnitureItems[0]]) == 800;
    assert PriceSum(f2) == 950;
    assert PriceSum(fs) == 1450;
  }

  lemma ExampleEstimate()
    ensures EstimatedRent(PricingData, ["bed", "fan", "balcony"]) == 2340.0
  {
    ExampleBaseRent();
    ExampleFurnitureCount();
    assert FinalRent(1950, SemiFurnished) == 2340.0;
  }

  lemma ExampleRange()
    ensures RangeAround(2340.0) == RentRange(2200, 2450)
  {
    assert Max(100.0, 2340.0 * 0.05) == 117.0;
    assert Round(2223.0 / 50.0) == 44;
    assert Round(2457.0 / 50.0) == 49;
  }

  /** The worked example: a bed and a fan detected, a balcony confirmed.
      The base rent is 500 + 800 + 150 + 500 = 1950, semi-furnished, so the
      estimate is 2340, the offset 117, and the range 2200 to 2450. */
  lemma BedFanBalconyExample()
    ensures RentFor(PricingData, ["bed", "fan", "balcony"])
         == RentCalculation(RentRange(2200, 2450), SemiFurnished,
                            map["Bed" := 800, "Fan" := 150, "Balcony" := 500])
  {
    ExampleDetails();
    ExampleFurnitureCount();
    ExampleEstimate();
    ExampleRange();
  }
}
