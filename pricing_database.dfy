/** The static feature catalog (src/lib/pricing-database.ts) and its three
    derived views: the flattened list, the id lookup and the detectable
    (non-structural) subset. The views are functions of the category list;
    `AllFeatures`, `AllFeaturesMap` and `DetectableFeatures` apply them to
    `PricingData`. Everything that depends only on the catalog being
    well formed is proved for any category list satisfying `ValidCatalog`,
    and `PricingDataIsValid` shows that `PricingData` does. */
module PricingDatabase {
  import opened Types
  import opened Wrappers
  import opened SeqUtil

  const FurnitureItems: seq<Feature> := [
    Feature("bed", "Bed", 800, "bed"),
    Feature("chair", "Chair", 200, "armchair"),
    Feature("table", "Table", 300, "table"),
    Feature("desk", "Desk", 400, "desk"),
    Feature("almirah", "Almirah", 500, "almirah")
  ]

  const ApplianceItems: seq<Feature> := [
    Feature("fan", "Fan", 150, "fan"),
    Feature("cooler", "Cooler", 400, "wind"),
    Feature("ac", "Air Conditioner", 1500, "snowflake")
  ]

  const StructuralItems: seq<Feature> := [
    Feature("1bhk", "1BHK", 1000, "home"),
    Feature("2bhk", "2BHK", 2000, "home"),
    Feature("balcony", "Balcony", 500, "building"),
    Feature("attached-bathroom", "Attached Bathroom", 700, "bath"),
    Feature("small-kitchen", "Small Kitchen", 400, "cooking-pot"),
    Feature("medium-kitchen", "Medium Kitchen", 800, "cooking-pot")
  ]

  const QualityItems: seq<Feature> := [
    Feature("furnished-floor", "Furnished Floor", 300, "brick-wall"),
    Feature("good-walls", "Good Wall Condition", 200, "paintbrush")
  ]

  /** `PRICING_DATA`: the four categories in their fixed order. */
  const PricingData: seq<FeatureCategory> := [
    FeatureCategory(Furniture, "Furniture", FurnitureItems),
    FeatureCategory(Appliances, "Appliances", ApplianceItems),
    FeatureCategory(Structural, "Structural Features", StructuralItems),
    FeatureCategory(Quality, "Room Quality", QualityItems)
  ]

  /** `categories.flatMap(c => c.items)`. */
  function Items(categories: seq<FeatureCategory>): seq<Feature> {
    if categories == [] then [] else categories[0].items + Items(categories[1..])
  }

  /** `categories.filter(c => c.id !== 'structural')`. */
  function WithoutStructural(categories: seq<FeatureCategory>): (r: seq<FeatureCategory>)
    ensures forall c :: c in r <==> c in categories && c.id != Structural
    ensures |r| <= |categories|
  {
    if categories == [] then []
    else if categories[0].id != Structural then [categories[0]] + WithoutStructural(categories[1..])
    else WithoutStructural(categories[1..])
  }

  /** `new Map(fs.map(f => [f.id, f]))`: entries are inserted in order, so a
      later entry with the same id replaces an earlier one. */
  function IdMap(fs: seq<Feature>): map<string, Feature> {
    if fs == [] then map[]
    else IdMap(fs[..|fs| - 1])[fs[|fs| - 1].id := fs[|fs| - 1]]
  }

  const AllFeatures: seq<Feature> := Items(PricingData)

  const AllFeaturesMap: map<string, Feature> := IdMap(AllFeatures)

  const DetectableFeatures: seq<Feature> := Items(WithoutStructural(PricingData))

  /** `categories.find(c => c.id === id)`. */
  function FindCategory(categories: seq<FeatureCategory>, id: CategoryId): (r: Option<FeatureCategory>)
    ensures r.Some? ==> r.value in categories && r.value.id == id
    ensures r.None? <==> forall c :: c in categories ==> c.id != id
  {
    if categories == [] then None
    else if categories[0].id == id then Some(categories[0])
    else FindCategory(categories[1..], id)
  }

  /** The items of the category with this id (`categories.find(..)?.items`),
      empty when there is no such category. */
  function CategoryItems(categories: seq<FeatureCategory>, id: CategoryId): seq<Feature> {
    match FindCategory(categories, id)
    case Some(c) => c.items
    case None => []
  }

  function Ids(fs: seq<Feature>): (ids: seq<string>)
    ensures |ids| == |fs| && forall k :: 0 <= k < |fs| ==> ids[k] == fs[k].id
  {
    seq(|fs|, k requires 0 <= k < |fs| => fs[k].id)
  }

  function Names(fs: seq<Feature>): (names: seq<string>)
    ensures |names| == |fs| && forall k :: 0 <= k < |fs| ==> names[k] == fs[k].name
  {
    seq(|fs|, k requires 0 <= k < |fs| => fs[k].name)
  }

  predicate IdsDistinct(fs: seq<Feature>) {
    forall i, j :: 0 <= i < j < |fs| ==> fs[i].id != fs[j].id
  }

  predicate NamesDistinct(fs: seq<Feature>) {
    forall i, j :: 0 <= i < j < |fs| ==> fs[i].name != fs[j].name
  }

  predicate PricedInFifties(fs: seq<Feature>) {
    forall i :: 0 <= i < |fs| ==> fs[i].basePrice >= 0 && fs[i].basePrice % 50 == 0
  }

  /** What the pricing engine relies on: ids and names are unique across
      the catalog, and every price is a non-negative multiple of 50. */
  predicate ValidCatalog(categories: seq<FeatureCategory>) {
    var all := Items(categories);
    IdsDistinct(all) && NamesDistinct(all) && PricedInFifties(all)
  }

  /** `ALL_FEATURES_MAP.get(id)` over the given catalog: the item with that
      id, or absent when no item carries it. */
  function Lookup(categories: seq<FeatureCategory>, id: string): (r: Option<Feature>)
    ensures r.Some? ==> r.value in Items(categories) && r.value.id == id
    ensures r.None? <==> id !in Ids(Items(categories))
  {
    var m := IdMap(Items(categories));
    IdMapKeys(Items(categories));
    IdMapHoldsItems(Items(categories));
    if id in m then Some(m[id]) else None
  }

  /** Looking an id up in the catalog is `ALL_FEATURES_MAP.get(id)`. */
  lemma LookupIsAllFeaturesMap(id: string)
    ensures Lookup(PricingData, id) == if id in AllFeaturesMap then Some(AllFeaturesMap[id]) else None
  {
  }

  // ----- Properties of any catalog -----

  /** A category's items are catalog items. */
  lemma CategoryItemsAreItems(categories: seq<FeatureCategory>, id: CategoryId)
    ensures forall f :: f in CategoryItems(categories, id) ==> f in Items(categories)
  {
    if FindCategory(categories, id).Some? {
      ItemsOfMember(categories, FindCategory(categories, id).value);
    }
  }

  lemma {:induction false} ItemsOfMember(categories: seq<FeatureCategory>, c: FeatureCategory)
    requires c in categories
    ensures forall f :: f in c.items ==> f in Items(categories)
  {
    if categories[0] != c {
      ItemsOfMember(categories[1..], c);
    }
  }

  /** The keys of the id map are exactly the ids of the list. */
  lemma {:induction false} IdMapKeys(fs: seq<Feature>)
    ensures IdMap(fs).Keys == set id | id in Ids(fs)
  {
    if fs != [] {
      var init := fs[..|fs| - 1];
      IdMapKeys(init);
      assert Ids(fs) == Ids(init) + [fs[|fs| - 1].id];
    }
  }

  /** The id map only holds items of the list, each under its own id. */
  lemma {:induction false} IdMapHoldsItems(fs: seq<Feature>)
    ensures forall id :: id in IdMap(fs) ==> IdMap(fs)[id] in fs && IdMap(fs)[id].id == id
  {
    if fs != [] {
      var init := fs[..|fs| - 1];
      IdMapHoldsItems(init);
      assert fs == init + [fs[|fs| - 1]];
    }
  }

  /** With distinct ids, the map sends each id to the one item carrying it. */
  lemma {:induction false} IdMapValues(fs: seq<Feature>)
    requires IdsDistinct(fs)
    ensures forall f :: f in fs ==> f.id in IdMap(fs) && IdMap(fs)[f.id] == f
  {
    if fs != [] {
      var init := fs[..|fs| - 1];
      var last := fs[|fs| - 1];
      assert IdsDistinct(init) by {
        forall i, j | 0 <= i < j < |init| ensures init[i].id != init[j].id {
          assert init[i] == fs[i] && init[j] == fs[j];
        }
      }
      IdMapValues(init);
      assert IdMap(fs) == IdMap(init)[last.id := last];
      forall f | f in fs ensures f.id in IdMap(fs) && IdMap(fs)[f.id] == f {
        if f != last {
          var i :| 0 <= i < |fs| && fs[i] == f;
          assert i < |fs| - 1 && init[i] == f;
          assert f.id != last.id;
        }
      }
    }
  }

  /** In a valid catalog, looking up the id of an item yields that very item. */
  lemma LookupFindsItem(categories: seq<FeatureCategory>, f: Feature)
    requires ValidCatalog(categories) && f in Items(categories)
    ensures Lookup(categories, f.id) == Some(f)
  {
    IdMapValues(Items(categories));
  }

  /** Two items of a valid catalog with the same name are the same item. */
  lemma SameNameSameItem(categories: seq<FeatureCategory>, f: Feature, g: Feature)
    requires ValidCatalog(categories) && f in Items(categories) && g in Items(categories)
    requires f.name == g.name
    ensures f == g
  {
    var all := Items(categories);
    var i :| 0 <= i < |all| && all[i] == f;
    var j :| 0 <= j < |all| && all[j] == g;
    assert i == j;
  }

  /** Two different items of a valid catalog have different names. */
  lemma DistinctItemsDistinctNames(categories: seq<FeatureCategory>, f: Feature, g: Feature)
    requires ValidCatalog(categories) && f in Items(categories) && g in Items(categories)
    requires f != g
    ensures f.name != g.name
  {
    var all := Items(categories);
    var i :| 0 <= i < |all| && all[i] == f;
    var j :| 0 <= j < |all| && all[j] == g;
    assert i != j;
  }

  /** Every item of a valid catalog has a non-negative price, a multiple of 50. */
  lemma ItemPriceInFifties(categories: seq<FeatureCategory>, f: Feature)
    requires ValidCatalog(categories) && f in Items(categories)
    ensures f.basePrice >= 0 && f.basePrice % 50 == 0
  {
    var all := Items(categories);
    var i :| 0 <= i < |all| && all[i] == f;
  }

  /** A feature is detectable exactly when it is an item of a
      non-structural category. */
  lemma {:induction false} DetectableMembership(categories: seq<FeatureCategory>, f: Feature)
    ensures f in Items(WithoutStructural(categories))
        <==> exists c :: c in categories && c.id != Structural && f in c.items
  {
    if categories != [] {
      var c := categories[0];
      var rest := categories[1..];
      DetectableMembership(rest, f);
      assert forall d :: d in categories <==> d == c || d in rest;
      if c.id != Structural {
        assert Items([c] + WithoutStructural(rest)) == c.items + Items(WithoutStructural(rest));
      }
    }
  }

  // ----- Properties of PRICING_DATA -----

  /** `ALL_FEATURES` lists the four categories' items in category order. */
  lemma AllFeaturesInCategoryOrder()
    ensures AllFeatures == FurnitureItems + ApplianceItems + StructuralItems + QualityItems
    ensures |AllFeatures| == 16
  {
    var d := PricingData;
    assert Items(d[3..]) == QualityItems + Items([]);
    assert Items(d[2..]) == StructuralItems + QualityItems;
    assert Items(d[1..]) == ApplianceItems + StructuralItems + QualityItems;
  }

  /** `PRICING_DATA.find(c => c.id === 'furniture')` finds the furniture items. */
  lemma FurnitureCategoryOfPricingData()
    ensures CategoryItems(PricingData, Furniture) == FurnitureItems
  {
  }

  const CatalogIdList: seq<string> := ["bed", "chair", "table", "desk", "almirah", "fan", "cooler", "ac",
    "1bhk", "2bhk", "balcony", "attached-bathroom", "small-kitchen", "medium-kitchen",
    "furnished-floor", "good-walls"]

  const CatalogNameList: seq<string> := ["Bed", "Chair", "Table", "Desk", "Almirah", "Fan", "Cooler",
    "Air Conditioner", "1BHK", "2BHK", "Balcony", "Attached Bathroom", "Small Kitchen",
    "Medium Kitchen", "Furnished Floor", "Good Wall Condition"]

  lemma IdListNoDup()
    ensures NoDup(CatalogIdList)
  {
  }

  lemma NameListNoDup()
    ensures NoDup(CatalogNameList)
  {
  }

  lemma IdsNamesAppend(a: seq<Feature>, b: seq<Feature>)
    ensures Ids(a + b) == Ids(a) + Ids(b) && Names(a + b) == Names(a) + Names(b)
  {
  }

  lemma CategoryIdsNames()
    ensures Ids(FurnitureItems) == ["bed", "chair", "table", "desk", "almirah"]
    ensures Ids(ApplianceItems) == ["fan", "cooler", "ac"]
    ensures Ids(StructuralItems) == StructuralIdList
    ensures Ids(QualityItems) == ["furnished-floor", "good-walls"]
    ensures Names(FurnitureItems) == ["Bed", "Chair", "Table", "Desk", "Almirah"]
    ensures Names(ApplianceItems) == ["Fan", "Cooler", "Air Conditioner"]
    ensures Names(StructuralItems) == ["1BHK", "2BHK", "Balcony", "Attached Bathroom", "Small Kitchen", "Medium Kitchen"]
    ensures Names(QualityItems) == ["Furnished Floor", "Good Wall Condition"]
  {
  }

  /** The ids and names of `ALL_FEATURES`, in catalog order. */
  lemma CatalogListsInOrder()
    ensures Ids(AllFeatures) == CatalogIdList && Names(AllFeatures) == CatalogNameList
  {
    AllFeaturesInCategoryOrder();
    IdsNamesAppend(FurnitureItems, ApplianceItems);
    IdsNamesAppend(FurnitureItems + ApplianceItems, StructuralItems);
    IdsNamesAppend(FurnitureItems + ApplianceItems + StructuralItems, QualityItems);
    CategoryIdsNames();
  }

  lemma CatalogIds()
    ensures Ids(AllFeatures) == CatalogIdList
    ensures NoDup(Ids(AllFeatures))
  {
    CatalogListsInOrder();
    IdListNoDup();
  }

  lemma CatalogNames()
    ensures Names(AllFeatures) == CatalogNameList
    ensures NoDup(Names(AllFeatures))
  {
    CatalogListsInOrder();
    NameListNoDup();
  }

  lemma IdsDistinctFromList(fs: seq<Feature>)
    requires NoDup(Ids(fs))
    ensures IdsDistinct(fs)
  {
    forall i, j | 0 <= i < j < |fs| ensures fs[i].id != fs[j].id {
      assert Ids(fs)[i] != Ids(fs)[j];
    }
  }

  lemma NamesDistinctFromList(fs: seq<Feature>)
    requires NoDup(Names(fs))
    ensures NamesDistinct(fs)
  {
    forall i, j | 0 <= i < j < |fs| ensures fs[i].name != fs[j].name {
      assert Names(fs)[i] != Names(fs)[j];
    }
  }

  /** No two catalog items share an id. */
  lemma AllFeaturesIdsDistinct()
    ensures IdsDistinct(AllFeatures)
  {
    CatalogIds();
    IdsDistinctFromList(AllFeatures);
  }

  /** No two catalog items share a name, so a record keyed by name loses nothing. */
  lemma AllFeaturesNamesDistinct()
    ensures NamesDistinct(AllFeatures)
  {
    CatalogNames();
    NamesDistinctFromList(AllFeatures);
  }

  lemma CategoriesPricedInFifties()
    ensures PricedInFifties(FurnitureItems) && PricedInFifties(ApplianceItems)
    ensures PricedInFifties(StructuralItems) && PricedInFifties(QualityItems)
  {
  }

  /** Every catalog price is non-negative and a whole multiple of 50. */
  lemma AllFeaturesPricedInFifties()
    ensures PricedInFifties(AllFeatures)
  {
    CategoriesPricedInFifties();
    AllFeaturesInCategoryOrder();
    var all := AllFeatures;
    forall i | 0 <= i < |all| ensures all[i].basePrice >= 0 && all[i].basePrice % 50 == 0 {
      if i < 5 {
        assert all[i] == FurnitureItems[i];
      } else if i < 8 {
        assert all[i] == ApplianceItems[i - 5];
      } else if i < 14 {
        assert all[i] == StructuralItems[i - 8];
      } else {
        assert all[i] == QualityItems[i - 14];
      }
    }
  }

  /** `PRICING_DATA` is a valid catalog. */
  lemma PricingDataIsValid()
    ensures ValidCatalog(PricingData)
  {
    AllFeaturesIdsDistinct();
    AllFeaturesNamesDistinct();
    AllFeaturesPricedInFifties();
  }

  /** `DETECTABLE_FEATURES` is `ALL_FEATURES` without the structural items,
      in the same order. */
  lemma DetectableIsAllButStructural()
    ensures DetectableFeatures == FurnitureItems + ApplianceItems + QualityItems
    ensures |DetectableFeatures| == 10
  {
    var d := PricingData;
    assert WithoutStructural(d[3..]) == [d[3]];
    assert WithoutStructural(d[2..]) == [d[3]];
    assert WithoutStructural(d) == [d[0], d[1], d[3]];
    assert Items([d[3]]) == QualityItems;
    assert Items([d[1], d[3]]) == ApplianceItems + QualityItems;
  }

  const DetectableIdList: seq<string> := ["bed", "chair", "table", "desk", "almirah", "fan", "cooler", "ac",
    "furnished-floor", "good-walls"]

  const StructuralIdList: seq<string> := ["1bhk", "2bhk", "balcony", "attached-bathroom", "small-kitchen", "medium-kitchen"]

  lemma DetectableIds()
    ensures Ids(DetectableFeatures) == DetectableIdList
  {
    DetectableIsAllButStructural();
  }

  lemma IdListsDisjoint()
    ensures forall x :: x in DetectableIdList ==> x !in StructuralIdList
  {
  }

  /** Two lists whose id lists are disjoint share no id. */
  lemma DisjointIds(a: seq<Feature>, b: seq<Feature>)
    requires forall x :: x in Ids(a) ==> x !in Ids(b)
    ensures forall f, g :: f in a && g in b ==> f.id != g.id
  {
    forall f, g | f in a && g in b ensures f.id != g.id {
      var i :| 0 <= i < |a| && a[i] == f;
      var j :| 0 <= j < |b| && b[j] == g;
      assert Ids(a)[i] == f.id && Ids(a)[i] in Ids(a);
      assert Ids(b)[j] == g.id && Ids(b)[j] in Ids(b);
    }
  }

  /** No detectable feature shares its id with a structural one. */
  lemma DetectableHasNoStructuralId()
    ensures forall f, g :: f in DetectableFeatures && g in StructuralItems ==> f.id != g.id
  {
    DetectableIds();
    CategoryIdsNames();
    IdListsDisjoint();
    DisjointIds(DetectableFeatures, StructuralItems);
  }

  /** The furniture category holds exactly five items. */
  lemma FurnitureHasFiveItems()
    ensures |CategoryItems(PricingData, Furniture)| == 5
    ensures Ids(CategoryItems(PricingData, Furniture)) == ["bed", "chair", "table", "desk", "almirah"]
  {
    FurnitureCategoryOfPricingData();
  }
}
