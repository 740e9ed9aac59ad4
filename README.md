# Rental-Insights rent estimator in Dafny

This project models the core of Rental-Insights, a Next.js app that turns room photos into a monthly rent range.

1. The user uploads up to five images and ticks the structural features of the flat.
2. A mock detector labels each image with catalog features.
3. A language-model flow merges the per-image detections.
4. The detected ids and the ticked structural ids are combined without duplicates.
5. A fixed catalog prices the combined list.
6. A second language-model flow writes an explanation.

The model covers four parts:

- **The catalog** (`pricing_database.dfy`, module `PricingDatabase`):
  - the sixteen priced features in four categories, with their derived views (the flat list, the id map, the detectable subset);
  - the facts the pricing relies on: unique ids and names, and prices that are non-negative multiples of 50.
- **The pricing engine** (`pricing.dfy`, module `Pricing`):
  - `calculateRent` as an imperative loop, proved equal to a functional specification `RentFor`;
  - lemmas on `RentFor`: the furnishing thresholds, the rounded range that brackets the estimate, unknown ids being ignored, one pricing entry per feature.
- **The server action** (`actions.dfy`, module `Actions`):
  - the mock detector `mockDetectObjectsInImage` as a loop over a stream of random draws;
  - `getRentalPrediction`, which merges, de-duplicates with a `Set`, resolves, prices, explains and maps errors.
  - The merge rule given to the language model is the predicate `IsMergeOf` in `merge_detections.dfy`, with a reference `Merge` proved to satisfy it.
- **The upload wizard** (`page.dfy`, module `Page`): the page's state variables are the fields of the class `RentalInsightsPage`, and its event handlers are its methods.

Helper files:

- `wrappers.dfy`: `Option`.
- `seq_util.dfy`: the `Set`-based de-duplication `Dedupe`, keeping first occurrences in order.
- `types.dfy`: the value types of `src/lib/types.ts`.

The catalog that `calculateRent` reads is passed in as a parameter. `getRentalPrediction` passes `PricingData`, the literal catalog.

Generic properties are proved for any catalog satisfying `ValidCatalog`. `PricingDataIsValid` proves that `PricingData` satisfies it.

Numbers are exact: the multipliers 1.2 and 1.5 and the factor 0.05 are rationals, and `Math.round(x)` is `Floor(x + 1/2)`.

## Model

| member | source | states |
|---|---|---|
| PricingDatabase.AllFeaturesInCategoryOrder | src/lib/pricing-database.ts:3-50 | the flat feature list is furniture, appliances, structural, quality items in that order, 16 items |
| PricingDatabase.CatalogListsInOrder | src/lib/pricing-database.ts:3-50 | the ids and the names of the flat list, category by category |
| PricingDatabase.CatalogIds | src/lib/pricing-database.ts:3-50 | the catalog ids in order, and they are pairwise distinct |
| PricingDatabase.CatalogNames | src/lib/pricing-database.ts:3-50 | the catalog names in order, and they are pairwise distinct |
| PricingDatabase.AllFeaturesIdsDistinct | src/lib/pricing-database.ts:3-50 | no two catalog items share an id |
| PricingDatabase.AllFeaturesNamesDistinct | src/lib/pricing-database.ts:3-50 | no two catalog items share a name, so a record keyed by name loses nothing |
| PricingDatabase.AllFeaturesPricedInFifties | src/lib/pricing-database.ts:3-48 | every catalog price is non-negative and a multiple of 50 |
| PricingDatabase.PricingDataIsValid | src/lib/pricing-database.ts:3-48 | the literal catalog satisfies ValidCatalog (distinct ids, distinct names, prices in fifties) |
| PricingDatabase.FurnitureHasFiveItems | src/lib/pricing-database.ts:4-15 | the furniture category found by id has five items: bed, chair, table, desk, almirah |
| PricingDatabase.FurnitureCategoryOfPricingData | src/lib/pricing-database.ts:4-15 | finding the furniture category by id yields the furniture items |
| PricingDatabase.Items | src/lib/pricing-database.ts:50 | definition: `flatMap` of the categories' items, in order; membership is stated by ItemsOfMember and CategoryItemsAreItems |
| PricingDatabase.ItemsOfMember | src/lib/pricing-database.ts:50 | every item of a listed category is in the flattened list |
| PricingDatabase.IdMap | src/lib/pricing-database.ts:52 | definition: the Map built entry by entry, later ids overwriting; its keys and values are stated by IdMapKeys, IdMapHoldsItems and IdMapValues |
| PricingDatabase.WithoutStructural | src/lib/pricing-database.ts:54-55 | a category is kept exactly when it is listed and is not the structural one; never longer than the input |
| PricingDatabase.CategoryItems | src/app/actions.ts:48 | definition: the items of the first category with the id (`find(..)?.items`), empty when no category has it, so `some(..)` is then false; FurnitureCategoryOfPricingData gives its value for the catalog |
| PricingDatabase.FindCategory | src/app/actions.ts:48 | a found category is a member with that id; none is found exactly when no category has the id |
| PricingDatabase.CategoryItemsAreItems | src/lib/pricing-database.ts:50 | every item of a category is in the flattened list |
| PricingDatabase.Lookup | src/lib/pricing-database.ts:52 | a hit is a catalog item with the requested id; a miss happens exactly when no item has that id |
| PricingDatabase.LookupIsAllFeaturesMap | src/lib/pricing-database.ts:52 | looking an id up in the catalog gives exactly what the map built from the flat feature list holds for it |
| PricingDatabase.IdMapKeys | src/lib/pricing-database.ts:52 | the id map's keys are exactly the ids of the list |
| PricingDatabase.IdMapHoldsItems | src/lib/pricing-database.ts:52 | every map entry is an item of the list stored under its own id |
| PricingDatabase.IdMapValues | src/lib/pricing-database.ts:52 | with distinct ids, each item's id maps to that item |
| PricingDatabase.LookupFindsItem | src/lib/pricing-database.ts:50-52 | in a valid catalog, looking up an item's id returns that item |
| PricingDatabase.SameNameSameItem | src/lib/pricing-database.ts:3-48 | in a valid catalog, two items with the same name are the same item |
| PricingDatabase.DistinctItemsDistinctNames | src/lib/pricing-database.ts:3-48 | in a valid catalog, different items have different names |
| PricingDatabase.ItemPriceInFifties | src/lib/pricing-database.ts:3-48 | every item of a valid catalog costs a non-negative multiple of 50 |
| PricingDatabase.DetectableMembership | src/lib/pricing-database.ts:54-56 | a feature is detectable exactly when it belongs to a non-structural category |
| PricingDatabase.DetectableIsAllButStructural | src/lib/pricing-database.ts:54-56 | the detectable list is furniture, appliances, quality in order, 10 items |
| PricingDatabase.DetectableIds | src/lib/pricing-database.ts:54-56 | the ids of the detectable features in order |
| PricingDatabase.DisjointIds | src/lib/pricing-database.ts:54-56 | two feature lists with disjoint id lists share no id |
| PricingDatabase.DetectableHasNoStructuralId | src/lib/pricing-database.ts:54-56 | no detectable feature shares its id with a structural feature |
| Pricing.Resolve | src/app/actions.ts:39-45 | the features priced are at most as many as the ids |
| Pricing.BaseRent | src/app/actions.ts:36-45 | definition: 500 plus the prices of the resolved ids; ResolvedPriceInFifties and EstimateAtLeastEmptyRoom state its properties |
| Pricing.ResolveStep | src/app/actions.ts:39-45 | one more id adds its item's price to the base rent and its name and price to the details, or changes nothing when unknown |
| Pricing.ResolvedAreCatalogItems | src/app/actions.ts:39-45 | every resolved feature is a catalog item whose id was listed and which the lookup returns |
| Pricing.ResolveMembership | src/app/actions.ts:93-95 | in a valid catalog, an item is resolved exactly when its id is listed |
| Pricing.ResolveNoDup | src/app/actions.ts:93-95 | distinct ids resolve to distinct features |
| Pricing.DetailsOf | src/app/actions.ts:37-45 | definition: the record after the forEach, one assignment per resolved id; its content is stated by DetailsAreResolvedPrices |
| Pricing.IsFurnitureId | src/app/actions.ts:47-48 | definition: the id is an item id of the category found as furniture; FurnitureIdsAreTheFive lists them |
| Pricing.FurnitureCount | src/app/actions.ts:47-49 | the filter's length is at most the number of ids |
| Pricing.Furnishing | src/app/actions.ts:51-62 | Furnished iff more than 3 furniture ids, Semi-Furnished iff 1 to 3, Unfurnished iff none |
| Pricing.Multiplier | src/app/actions.ts:52-59 | definition: 1.5, 1.2 or 1.0 for the three statuses |
| Pricing.FinalRent | src/app/actions.ts:64 | definition: the base rent times the multiplier |
| Pricing.RangeAround | src/app/actions.ts:67-73 | definition: offset max(100, 5%), both ends rounded to multiples of 50; stated by RangeAroundBrackets |
| Pricing.Round | src/app/actions.ts:71-72 | Math.round: the result is within half a unit of x, halves rounding up |
| Pricing.RangeAroundBrackets | src/app/actions.ts:64-73 | both ends are multiples of 50 nearest to estimate ∓ max(100, 5%); the range is at least 200 wide; the estimate is at least 75 inside both ends |
| Pricing.RentFor | src/app/actions.ts:31-77 | definition: the whole of calculateRent as one function of the ids; RentForBrackets states its range, Furnishing its status and DetailsAreResolvedPrices its details |
| Pricing.RentForBrackets | src/app/actions.ts:31-77 | the computed range has ends that are multiples of 50, is at least 200 wide and strictly contains the point estimate |
| Pricing.RentForOfParts | src/app/actions.ts:36-73 | the base rent, details, status and multiplier as computed step by step give exactly RentFor |
| Pricing.CalculateRent | src/app/actions.ts:31-77 | the loop-and-branch implementation returns exactly RentFor of the ids |
| Pricing.PriceSumInFifties | src/app/actions.ts:36-45 | summing prices that are non-negative multiples of 50 gives a non-negative multiple of 50 |
| Pricing.ResolvedPriceInFifties | src/app/actions.ts:36-45 | in a valid catalog the summed prices are a non-negative multiple of 50 |
| Pricing.EstimateAtLeastEmptyRoom | src/app/actions.ts:36-64 | the point estimate is never below the empty-room rent of 500 |
| Pricing.DetailsAreResolvedPrices | src/app/actions.ts:37-45 | pricingDetails has exactly the resolved features' names as keys, each mapped to its base price |
| Pricing.NewNameIsFresh | src/app/actions.ts:43 | in a valid catalog, an item whose id was not listed brings a name the details do not hold yet |
| Pricing.DetailsLoseNoEntry | src/app/actions.ts:43 | for duplicate-free ids, there is one pricingDetails entry per resolved feature |
| Pricing.FurnitureIdsAreKnown | src/app/actions.ts:47-49 | every furniture id resolves in the lookup |
| Pricing.UnknownIdIgnoredParts | src/app/actions.ts:39-49 | an unknown id changes neither the resolved features, nor the details, nor the furniture count |
| Pricing.UnknownIdDoesNotChangeRent | src/app/actions.ts:39-77 | inserting an unknown id anywhere leaves the whole result unchanged |
| Pricing.FurnitureCountIsDistinctFurniture | src/app/actions.ts:47-49 | for duplicate-free ids, the furniture count is the number of distinct furniture ids present |
| Pricing.FurnitureCountBounded | src/app/actions.ts:47-49 | for duplicate-free ids, the furniture count is at most the size of the furniture category |
| Pricing.FurnitureIdsAreTheFive | src/app/actions.ts:47-49 | an id counts as furniture exactly when it is bed, chair, table, desk or almirah |
| Pricing.FurnitureCountAtMostFive | src/app/actions.ts:47-49 | for duplicate-free ids, at most five furniture items are counted |
| Pricing.ExampleLookups | src/lib/pricing-database.ts:9-33 | bed, fan and balcony resolve to their catalog items |
| Pricing.ExampleResolves | src/app/actions.ts:39-45 | bed, fan, balcony resolve in order to their three catalog items |
| Pricing.ExampleDetails | src/app/actions.ts:37-45 | bed, fan, balcony give the details Bed 800, Fan 150, Balcony 500 |
| Pricing.ExampleFurnitureCount | src/app/actions.ts:47-49 | bed, fan, balcony hold one piece of furniture |
| Pricing.ExampleBaseRent | src/app/actions.ts:36-45 | bed, fan, balcony give a base rent of 1950 |
| Pricing.ExampleEstimate | src/app/actions.ts:54-64 | bed, fan, balcony give a semi-furnished estimate of 2340 |
| Pricing.ExampleRange | src/app/actions.ts:67-73 | an estimate of 2340 gives the range 2200 to 2450 |
| Pricing.BedFanBalconyExample | src/app/actions.ts:31-77 | the full result for bed, fan, balcony: range 2200 to 2450, Semi-Furnished, three pricing entries |
| SeqUtil.Dedupe | src/app/actions.ts:91 | Array.from(new Set(..)): duplicate-free, with exactly the input's elements |
| SeqUtil.FirstIndex | src/app/actions.ts:91 | the first position of an element, which does not occur earlier |
| SeqUtil.DedupeKeepsFirstOccurrenceOrder | src/app/actions.ts:91 | the de-duplicated elements appear in the order of their first occurrence |
| SeqUtil.DedupeExtends | src/app/actions.ts:91 | de-duplicating a prefix yields a prefix of the de-duplicated whole |
| SeqUtil.DedupeOfNoDup | src/app/actions.ts:91 | a duplicate-free list is its own de-duplication |
| MergeDetections.IsMergeOf | src/ai/flows/merge-detections-from-multiple-images.ts:56-57 | definition of the merge rule: labels distinct, nothing invented, the highest confidence kept per label, every input label present |
| MergeDetections.Upsert | src/ai/flows/merge-detections-from-multiple-images.ts:56-57 | definition: adds one detection to a merged list; UpsertLabels and UpsertKeepsRule state its effect |
| MergeDetections.UpsertLabels | src/ai/flows/merge-detections-from-multiple-images.ts:56 | a new label is appended to the label list; a known one leaves it unchanged |
| MergeDetections.MergeAll | src/ai/flows/merge-detections-from-multiple-images.ts:56-57 | definition: folds Upsert over the detections; stated by MergeAllIsMerge and MergeAllLabelOrder |
| MergeDetections.Merge | src/ai/flows/merge-detections-from-multiple-images.ts:56-57 | the reference merge satisfies the merge rule, and its labels are the input labels in first-seen order |
| MergeDetections.UpsertKeepsRule | src/ai/flows/merge-detections-from-multiple-images.ts:56-57 | adding one detection to a merge of a list gives a merge of the extended list |
| MergeDetections.MergeAllIsMerge | src/ai/flows/merge-detections-from-multiple-images.ts:56-57 | folding the detections one by one satisfies the merge rule |
| MergeDetections.MergeAllLabelOrder | src/ai/flows/merge-detections-from-multiple-images.ts:56-57 | the merged labels are the de-duplicated input labels |
| MergeDetections.MergeRuleDeterminesResult | src/ai/flows/merge-detections-from-multiple-images.ts:56-57 | two merges of the same input that both obey the rule hold the same detections |
| MergeDetections.MergeOfNothingIsEmpty | src/ai/flows/merge-detections-from-multiple-images.ts:23-35 | when every image has no detections, any rule-abiding merge is empty |
| MergeDetections.FlattenMembership | src/ai/flows/merge-detections-from-multiple-images.ts:23-29 | a detection is in the flattened input exactly when some image has it |
| Actions.DetectStep | src/app/actions.ts:16-24 | definition: one loop iteration over the draw stream; stated by DetectStepShape |
| Actions.Iterate | src/app/actions.ts:13-24 | definition: the state after i iterations; stated by IterateShape |
| Actions.MockDetection | src/app/actions.ts:10-29 | definition: the loop for the drawn count, then the delay draw; the method is proved equal to it |
| Actions.FeatureCount | src/app/actions.ts:14 | two to five features are drawn per image |
| Actions.PickIndex | src/app/actions.ts:17 | the drawn index is a valid position of the detectable list |
| Actions.Confidence | src/app/actions.ts:21 | the confidence lies in [0.7, 0.98) |
| Actions.DetectStepShape | src/app/actions.ts:16-24 | one iteration adds at most one detection, always one on an empty list, keeps labels distinct and detectable, and consumes draws |
| Actions.IterateShape | src/app/actions.ts:13-24 | after i iterations there are between 1 and i detections, well formed |
| Actions.MockDetectObjectsInImage | src/app/actions.ts:10-29 | the loop yields the specified detections: 1 to 5, distinct detectable labels, confidences in [0.7, 0.98) |
| Actions.DetectAll | src/app/actions.ts:83-84 | one detection list per image, each well formed with 1 to 5 entries |
| Actions.Detections | src/app/actions.ts:83-84 | one detection list per image, each well formed with 1 to 5 entries |
| Actions.FinalFeatureIds | src/app/actions.ts:91 | the final ids are duplicate-free and are exactly the detected ids plus the confirmed ones |
| Actions.FinalIdsKeepDetectedFirst | src/app/actions.ts:88-91 | distinct detected labels open the final list in the merge's order |
| Actions.ErrorMessage | src/app/actions.ts:118 | definition: the message of an Error, otherwise the fixed unknown-error text |
| Actions.FailureMessage | src/app/actions.ts:119 | the error text starts with the fixed prefix |
| Actions.ExplainRequest | src/app/actions.ts:101-105 | definition: the explanation flow is asked with the names of the resolved features, the computed range and the pricing details |
| Actions.Finish | src/app/actions.ts:88-114 | definition: everything after the merge, from the final ids to the response |
| Actions.Prediction | src/app/actions.ts:80-121 | definition: the whole action as a function of the images, confirmed ids, draws and flows; stated by ErrorResponses and SuccessfulPrediction |
| Actions.GetRentalPrediction | src/app/actions.ts:80-121 | the imperative server action returns exactly the specified prediction |
| Actions.ErrorResponses | src/app/actions.ts:116-120 | the response is an error exactly when a flow rejects, carrying that rejection's message after the fixed prefix |
| Actions.FailureMessageKeepsDetail | src/app/actions.ts:118-119 | two error responses are equal exactly when their details are |
| Actions.SuccessfulPrediction | src/app/actions.ts:93-114 | on success: the features are distinct, exactly the catalog items of merged or confirmed ids; the range and status are those of the final ids; one pricing entry per feature |
| Actions.HonestMergeFinalIds | src/app/actions.ts:87-91 | with a rule-abiding merge, the final ids are the labels seen in any image plus the confirmed ids |
| Actions.NoStructuralLabelDetected | src/app/actions.ts:17 | the detector never reports a structural feature |
| Actions.StructuralOnlyIfConfirmed | src/app/actions.ts:87-95 | with a rule-abiding merge, a structural feature is priced only if confirmed; every confirmed catalog id is priced |
| Page.LastRejection | src/app/page.tsx:69-79 | definition: the message of the last refused file in the batch, none if none is refused; stated by LastRejectionIsAMessage and NoRejectionKeepsAll |
| Page.Rejection | src/app/page.tsx:70-79 | a file is refused exactly when it is not image/* or exceeds 4 MiB; the type message exactly for a non-image, the size message exactly for an image over 4 MiB |
| Page.Accepted | src/app/page.tsx:70-80 | the kept files are exactly the batch's acceptable files, no more of them than the batch |
| Page.Truncate | src/app/page.tsx:84 | a prefix of the combined list of exactly min(length, 5) files, so unchanged when already short enough |
| Page.Previews | src/app/page.tsx:89-101 | on success, one data URL per file in order; failure means some read failed |
| Page.RemoveAt | src/app/page.tsx:105-106 | in range: one shorter, earlier elements kept, later ones shifted down; otherwise unchanged |
| Page.RemoveAll | src/app/page.tsx:113 | the id is gone and every other value is still present; no longer than the input |
| Page.RemoveAllKeepsRepeats | src/app/page.tsx:113 | as multisets, the result is the input with every occurrence of the id removed and every other value with all its repeats |
| Page.RemoveAllAppend | src/app/page.tsx:113 | filtering a concatenation filters each part, so the kept entries stay in order |
| Page.RemoveAllAbsent | src/app/page.tsx:113 | filtering out an id that is absent leaves the list unchanged |
| Page.RentalInsightsPage.Valid | src/app/page.tsx:33-44 | definition of the state invariant: at most five files and previews, and a set error is non-empty |
| Page.RentalInsightsPage.constructor | src/app/page.tsx:39-44 | the page starts empty, on the upload step, with no result and no error |
| Page.RentalInsightsPage.HandleFiles | src/app/page.tsx:68-87 | the error becomes the last refusal's message; with a previous error nothing else changes; otherwise files become the first five of old plus accepted, and previews are regenerated |
| Page.RentalInsightsPage.GeneratePreviews | src/app/page.tsx:89-102 | on success previews are replaced by one per file; on failure only the error is set |
| Page.RentalInsightsPage.RemoveFile | src/app/page.tsx:104-109 | the file and the preview at the index go; everything else stays |
| Page.RentalInsightsPage.HandleStructuralFeatureChange | src/app/page.tsx:111-115 | checking appends the id; unchecking removes every occurrence |
| Page.RentalInsightsPage.HandleSubmit | src/app/page.tsx:117-126 | without previews it only sets the error and sends nothing; otherwise step is analyzing, the error is cleared and the request carries the unchanged previews and ticked ids, repeats included |
| Page.RentalInsightsPage.FinishAnalysis | src/app/page.tsx:125-138 | a non-empty error returns to confirm; data shows results; an empty error string counts as success with no result |
| Page.RentalInsightsPage.HandleStartOver | src/app/page.tsx:141-148 | every field returns to its initial value |
| Page.RentalInsightsPage.ContinueToConfirm | src/app/page.tsx:205 | moves to confirm, nothing else changes |
| Page.RentalInsightsPage.BackToUpload | src/app/page.tsx:255 | moves to upload, nothing else changes |
| Page.LastRejectionIsAMessage | src/app/page.tsx:69-79 | the error left by the filter is one of the two refusal messages |
| Page.NoRejectionKeepsAll | src/app/page.tsx:69-80 | no error is left exactly when every file is accepted |
| Page.AcceptedIdempotent | src/app/page.tsx:70-80 | filtering the accepted files again changes nothing |
| Page.AcceptedAppend | src/app/page.tsx:70-80 | filtering a concatenation filters each part |
| Page.RemoveAtKeepsAlignment | src/app/page.tsx:104-109 | removing the same index from files and previews keeps them aligned |
| Page.UncheckUndoesCheck | src/app/page.tsx:111-115 | unchecking an id that was just checked restores the list |

## Left out

- The two language-model flows (`mergeDetections`, `explainRentalPrediction`) are parameters that resolve or reject. The merge rule from the merge prompt is stated as `IsMergeOf`. Lemmas that depend on it take it as a hypothesis; nothing claims that the model obeys it.
- The explanation text, the describe-room flow and its page, icons, layout components and all rendering (JSX, toasts, the progress bar) are not modelled.
- Randomness: `Math.random()` is a stream of draws in [0, 1) passed as a parameter. The draw for the simulated delay is consumed, and the delay itself is not modelled.
- Concurrency: `Promise.all` is modelled sequentially. Each detector call runs to its first `await` before the next starts, so the images consume draws in order. For the previews, any failed read fails the whole call.
- Floating point: prices, rents and confidences are exact numbers (`int`, `real`), not IEEE-754 doubles. Where a rounding tie in binary arithmetic would round differently, the model follows exact arithmetic.
- Pricing.Resolve: its own contract only bounds the length. What it resolves to is stated by `ResolveMembership`, `ResolvedAreCatalogItems` and `ResolveNoDup`.
- The `type: 'multi'` field of a category is not modelled; nothing reads it.
- `ServerActionResponse` is a choice between `data` and `error`. A response with neither or both set cannot arise from the server action.
- The mock detector never rejects, so detection failures cannot occur. The detection step has no error path.
- The browser's `FileReader` is a parameter returning a data URL or nothing. The asynchronous `setImagePreviews` and `setError` of `generatePreviews` happen within `HandleFiles`.
- `handleSubmit` is split at its `await` into `HandleSubmit` and `FinishAnalysis`. The transition flag `isPending` is not modelled.
- The `console.error(e)` logging in the catch block of `getRentalPrediction` is not modelled: it has no effect on the response.
- `handleFileChange`, `handleDrop` (which only pass a file list on) and the hero-image lookup are not modelled.
