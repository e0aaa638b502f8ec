# get-me-drunk-efficiently: a verified model of the core

get-me-drunk-efficiently is a cocktail app. Its backend builds a drink catalogue from Wikidata
query rows, fills in missing alcohol values from OpenFoodFacts averages, and caches everything
on disk. Given a per-mille target, a body weight and the ingredients at hand, it picks a
combination of drinks with a three-pass greedy selector. It also searches the catalogue by
name and ingredients. The shared code has a deep-equality function, and the frontend has tree
walks over DOM nodes. This project models those parts in Dafny and proves what the code does,
quirks included.

One module per source file, plus shared modules:

| module | models |
|---|---|
| `Wrappers` | `Option` and `Result` (a rejected promise or a thrown error is `Err`) |
| `JsValues` | JavaScript values: numbers as `NaN`, the two zeros, the infinities or a finite real; `typeof`, `===`, `Object.is`, truthiness, property lookup |
| `Strings` | `toLowerCase` (ASCII), `includes`, `indexOf`, `replace` with a string pattern, `endsWith`, the default string order of `sort` |
| `Seqs` | `filter` and order-preserving subsequences |
| `DataUtil` | backend/data/util.ts: `normalize`, `cached`, `once` |
| `Wikidata` | backend/data/wikidata.ts: `toDrinksAndIngredients`, `enrichAlcohol`, `accumulateTotal`, `getDrinksAndIngredients` |
| `OpenFoodFacts` | backend/data/openfoodfacts.ts: `parseOffResult`, rounding, the redirect rewrite and retry, the domain name |
| `Persist` | backend/data/persist.ts: the base-path trim, `buildCache`, `buildPersisted`, the domain registry, `persistedWithDomainArg` |
| `DrinkSelection` | the generator `getDrinksByMostAlc` and the grouping `Map`, shared by the three service files |
| `Tipsiness` | backend/service/tipsiness.ts, and the same text in backend/services.ts: `getOptimalDrinkAmounts`, `calculateTargetAlcohol`, `areIngredientsAvailable` |
| `LegacyTypes`, `ApiServices` | types.ts record shapes; backend/api/services.ts with its counting availability test |
| `SearchDrinks` | backend/service/search-drinks.ts, and the same filters in backend/services.ts |
| `ApiData` | backend/api/data.ts: `parseResult` and the `cachedDrinks` module cache |
| `Queries` | the validators of common/src/queries.ts, queries.ts and types.ts |
| `ArrayUtil` | frontend/src/util/array.ts: `arrayEquals` |
| `DeepEqual` | common/src/util/equal.ts: `deepEquals` and `deepEquals0` with its memo map |
| `Traversal` | frontend/src/util/traversal.ts: `SimpleTraversal`, `PayloadTraversal` and `IndexTraversal` |

How the model stands in for the code:

- Loops and objects that change state are methods and classes. Each method is proved to compute
  a specification function, and the properties are proved about those functions:
  - the row loop of `toDrinksAndIngredients` and the catalogue updates;
  - the `cached` and `once` closures, `buildCache` and `buildPersisted`;
  - the generator's labelled loops and the grouping `Map`;
  - `deepEquals0` with `memoizedComparisons`;
  - the `arrayEquals` loop.
- Effects are parameters:
  - each call of a callback (`retrieve`, the persisted block, a store write, an OpenFoodFacts
    lookup) is given the outcome it would produce;
  - `Math.random()` is a stream `draw`, where `draw(k)` is the value of its `k`-th call;
  - the store is a map from domain names to read results.
- A drink in the selector is its index in the pool. The source's `Map` is keyed by object
  identity, and an index reproduces that.
- Visitors are functions from a state and a node. The model records the calls made to them,
  so properties about call order can be stated.

Where the code and its description disagree, the model follows the code:

- A target of 0 does not give an empty result: drinks with volume 0 still pass the first two
  passes.
- The unit `'1'` is converted with the ounce factor rather than kept as a count.
- Duplicate ingredient rows are appended rather than merged.
- `maxAlcoholConcentration` is checked against its bounds but never filters.
- Two assertions of common/src/util/equal.test.ts (lines 63-66 and 104-106) contradict their
  own messages. Nothing is derived from them.

Two defects are modelled both as written and as evidently intended; see "## Findings". For
each, a `Variant` parameter (`AsWritten` or `Intended`) selects the behaviour.

## Model

| member | source | states |
|---|---|---|
| DataUtil.Normalize | backend/data/util.ts:3-23 | a listed label gives unit `'ml'`, any other label gives back amount and unit unchanged; the value is positive (zero) exactly when the amount is |
| DataUtil.NormalizeTable | backend/data/util.ts:6-19 | the factor of each of the fourteen labels, with `'1'` converted by the ounce factor 29.5735 |
| DataUtil.NormalizeUnitIff | backend/data/util.ts:5-21 | a label outside the table is returned unchanged, a listed one always becomes `'ml'` |
| DataUtil.MlPerUnit | backend/data/util.ts:6-21 | every factor is positive, and an unlisted label has factor 1 |
| DataUtil.NormalizeScales | backend/data/util.ts:5-21 | the converted value is the amount times the label's factor |
| DataUtil.NormalizeLinear | backend/data/util.ts:5-21 | for a fixed label the value is additive and homogeneous in the amount, and the unit does not depend on it |
| DataUtil.CachedCall | backend/data/util.ts:28-35 | `retrieve` runs exactly when the id is not cached, its result is stored and returned; a cached id returns the stored result and leaves the cache alone; other ids' entries never change |
| DataUtil.KeyedMemo.Call | backend/data/util.ts:25-36 | the memo object's call changes its map as `CachedCall` says and returns its result |
| DataUtil.RunCallsCache | backend/data/util.ts:26-35 | a run of calls adds exactly the called ids and keeps every existing entry |
| DataUtil.RunCallsRetrievedIff | backend/data/util.ts:29-33 | `retrieve` runs for an id exactly when it was called and not cached at the start |
| DataUtil.RunCallsRetrievesOnce | backend/data/util.ts:29-33 | `retrieve` never runs twice for one id |
| DataUtil.RunCallsResult | backend/data/util.ts:29-35 | every call for an id returns what the first call for that id produced |
| DataUtil.RunCachedResult | backend/data/util.ts:29-30 | a call for an id cached beforehand returns the cached value |
| DataUtil.Once.Get | backend/data/util.ts:39-47 | `retrieve` runs exactly when nothing is cached; its value is then kept, and `get` returns the cached value |
| DataUtil.OnceRunsUntilValue | backend/data/util.ts:42-46 | from an empty memo, `retrieve` runs on exactly the calls up to the first that yields a non-null value |
| DataUtil.OnceKeepsValue | backend/data/util.ts:42-46 | once a value is cached, `retrieve` is never called again |
| Wikidata.ToDrinksAndIngredients | backend/data/wikidata.ts:203-254 | the loop over the rows builds exactly the tables `Build` describes; the properties of `Build` are the lemmas below |
| Wikidata.ItemOf | backend/data/wikidata.ts:212-214 | the line item of an accepted row has a positive normalized amount |
| Wikidata.ValuesInOrder | backend/data/wikidata.ts:250-253 | `[...map.values()]`: one value per key, in key order |
| Wikidata.BuildWellFormed | backend/data/wikidata.ts:205-246 | the tables list each key once, store each ingredient under its own name, give every drink at least one line item and alcohol total 0, and every line item's ingredient is present |
| Wikidata.StepWellFormed | backend/data/wikidata.ts:208-245 | one iteration of the loop keeps that invariant |
| Wikidata.FirstRowFor | backend/data/wikidata.ts:216-226 | the first accepted row of a cocktail id, or none when it has none |
| Wikidata.FirstRowWithLabel | backend/data/wikidata.ts:228-237 | the first accepted row with an ingredient label, or none |
| Wikidata.ItemsForEmpty | backend/data/wikidata.ts:209-214 | a cocktail has line items exactly when it has an accepted row, so a row without label, amount or unit, or with amount at most 0, adds nothing |
| Wikidata.BuildDrinks | backend/data/wikidata.ts:216-244 | one drink per cocktail id with an accepted row; name and image from the first accepted row, the line items of all its accepted rows in order (duplicates appended), alcohol total 0 |
| Wikidata.BuildIngredients | backend/data/wikidata.ts:228-237 | one ingredient per accepted label; category and alcohol (binding divided by 100, else 0) from the first accepted row with that label |
| Wikidata.BuildDrinkOrder | backend/data/wikidata.ts:250-251 | drinks are listed in the order of their first accepted rows |
| Wikidata.BuildIngredientOrder | backend/data/wikidata.ts:250-253 | ingredients are listed in the order of the first accepted rows carrying their labels |
| Wikidata.BuildItemCount | backend/data/wikidata.ts:239-244 | the line items of all drinks number exactly the accepted rows: nothing is merged or dropped |
| Wikidata.Enrich | backend/data/wikidata.ts:256-263 | an ingredient with non-zero alcohol or without a category is returned as it is; otherwise only its alcohol changes, to the lookup's result, and a failed lookup rejects |
| Wikidata.EnrichSettles | backend/data/wikidata.ts:257 | an ingredient enriched to a non-zero alcohol is not looked up again |
| Wikidata.Catalog.EnrichAlcohol | backend/data/wikidata.ts:256-263 | the in-place update changes only that ingredient, as `Enrich` says, and nothing on a rejection |
| Wikidata.AlcoholSumAppend | backend/data/wikidata.ts:266-269 | the alcohol total is additive over a split of the line items |
| Wikidata.AlcoholSumNonNegative | backend/data/wikidata.ts:266-269 | non-negative amounts and alcohol values give a non-negative total |
| Wikidata.AlcoholScaledTwice | backend/data/wikidata.ts:234-267 | an alcohol binding `p` contributes `amount × p / 10000`: divided by 100 at creation and again in the sum |
| Wikidata.Accumulate | backend/data/wikidata.ts:265-272 | `accumulateTotal` changes only `alcoholVolume` |
| Wikidata.AccumulateIdempotent | backend/data/wikidata.ts:265-272 | accumulating twice is accumulating once |
| Wikidata.Catalog.AccumulateTotal | backend/data/wikidata.ts:265-272 | the in-place update changes only that drink, as `Accumulate` says |
| Wikidata.EnrichAll | backend/data/wikidata.ts:279 | enriching every ingredient keeps the set of labels |
| Wikidata.EnrichAllEach | backend/data/wikidata.ts:279 | every ingredient is enriched from its own value and the others are left alone; the whole step fails exactly when one needed lookup fails |
| Wikidata.EnrichAllRejected | backend/data/wikidata.ts:279 | the first rejection is the rejection of the whole step |
| Wikidata.EnrichEvery | backend/data/wikidata.ts:279 | the loop of `enrichAlcohol` calls leaves the catalogue as `EnrichAll` says, with its error on a rejection |
| Wikidata.AccumulateAll | backend/data/wikidata.ts:282 | accumulating every drink changes only alcohol totals |
| Wikidata.AccumulateAllEach | backend/data/wikidata.ts:282 | every listed drink carries the sum over its own line items, the others are unchanged |
| Wikidata.AccumulateEvery | backend/data/wikidata.ts:282 | the `forEach` loop leaves the drinks as `AccumulateAll` says and changes nothing else |
| Wikidata.GetDrinksAndIngredients | backend/data/wikidata.ts:274-285 | the stages run in order: build, enrich (a rejection stops it), accumulate; the result is `Pipeline` |
| Wikidata.PipelineIngredients | backend/data/wikidata.ts:274-285 | on success each ingredient, in insertion order, is its enriched self |
| Wikidata.PipelineTotals | backend/data/wikidata.ts:274-285 | on success each drink, in insertion order, keeps its built line items and carries their alcohol sum over the enriched values |
| OpenFoodFacts.ContributingValues | backend/data/openfoodfacts.ts:53-56 | exactly the alcohol values of products with `no_nutrition_data === ''` and a present, non-zero alcohol value, none of them zero |
| OpenFoodFacts.ParseOffResultCutOffs | backend/data/openfoodfacts.ts:49-59 | a count over 1000, or no contributing product, yields 0 |
| OpenFoodFacts.ParseOffResultBetween | backend/data/openfoodfacts.ts:62 | otherwise the result is the mean, so it lies between any lower and upper bound of the contributing values |
| OpenFoodFacts.SumBounds | backend/data/openfoodfacts.ts:62 | the sum of values between `lo` and `hi` lies between `n·lo` and `n·hi` |
| OpenFoodFacts.MeanBounds | backend/data/openfoodfacts.ts:62 | the mean of such values lies between `lo` and `hi` |
| OpenFoodFacts.ContributingValuesBounds | backend/data/openfoodfacts.ts:53-56 | bounds on the contributing products carry over to the values taken from them |
| OpenFoodFacts.Round | backend/data/openfoodfacts.ts:29 | `Math.round` gives the integer within half a unit, halves rounded up |
| OpenFoodFacts.RoundToTenth | backend/data/openfoodfacts.ts:28-29 | the result is a whole number of tenths within 0.05 of the input, halves rounded up |
| OpenFoodFacts.RoundToTenthIdempotent | backend/data/openfoodfacts.ts:29 | rounding a rounded value changes nothing |
| OpenFoodFacts.RedirectCategoryOfPath | backend/data/openfoodfacts.ts:20 | the location `/category/<c>.json` names the category `c` (for a slug without a dot) |
| OpenFoodFacts.RedirectCategoryUnchanged | backend/data/openfoodfacts.ts:20 | the rewrite only removes text: a location with neither pattern is kept |
| OpenFoodFacts.FetchAlcoholSuccess | backend/data/openfoodfacts.ts:26-32 | a successful response yields the mean of its listing rounded to a tenth |
| OpenFoodFacts.FetchAlcoholFuelMonotone | backend/data/openfoodfacts.ts:19-24 | a lookup that ended within some number of redirects ends the same way with more allowed |
| OpenFoodFacts.RedirectCycleUnresolved | backend/data/openfoodfacts.ts:19-24 | two categories redirecting to each other never produce a value: the retry has no hop limit |
| OpenFoodFacts.DomainName | backend/data/openfoodfacts.ts:33 | the domain is the 15-character prefix `'off-ingredient-'` followed by the category |
| OpenFoodFacts.DomainNameInjective | backend/data/openfoodfacts.ts:33 | distinct categories are persisted under distinct domains |
| Persist.TrimBasePath | backend/data/persist.ts:29-31 | a path ending in `'/'` or the separator loses exactly its last character; any other path is kept |
| Persist.TrimBasePathOnce | backend/data/persist.ts:29-31 | only one separator is removed, and a path without separators is unchanged |
| Persist.CacheDomain.constructor | backend/data/persist.ts:104-111 | the cache is valid from the start exactly when an initial value is given, and then holds it |
| Persist.CacheDomain.Cached | backend/data/persist.ts:113-131 | while invalid the block runs once, its outcome is stored and the cache becomes valid; while valid the stored value or rejection is returned and nothing runs |
| Persist.CacheDomain.Invalidate | backend/data/persist.ts:133-135 | only the `valid` flag is cleared |
| Persist.CacheNoRunBeforeInvalidate | backend/data/persist.ts:102-111 | a cache built with an initial value runs no block before it is invalidated |
| Persist.CacheRunsOnceAfterInvalidate | backend/data/persist.ts:119-135 | after an invalidation exactly the next use runs the block, and later uses up to the next invalidation do not |
| Persist.Store.RetrieveData | backend/data/persist.ts:14-19 | a read returns the stored result of the domain, not-found when there is none |
| Persist.Store.StoreData | backend/data/persist.ts:9-13 | a successful write makes later reads return the value; a failed one changes nothing |
| Persist.RecomputeReadHit | backend/data/persist.ts:166-173 | in state new or persisted-valid a successful read is returned without computing, and nothing changes |
| Persist.RecomputeFallsThrough | backend/data/persist.ts:174-209 | without a usable read the value is computed and written: success gives persisted-valid, a store error persisted-invalid with the value still returned, a serialize error persisted-invalid and a rejection |
| Persist.RecomputeIgnoresStoreWhenInvalid | backend/data/persist.ts:166 | in state persisted-invalid the store is never read: the outcome does not depend on it |
| Persist.RecomputeRoundTrip | backend/data/persist.ts:166-198 | after a successful write a fresh domain of the same name reads the value back without computing |
| Persist.PersistDomain.constructor | backend/data/persist.ts:159-160 | a new domain starts in state new with an empty, invalid cache |
| Persist.PersistDomain.RunBlock | backend/data/persist.ts:165-210 | the block's reads, computation and write leave the state, store and outcome that `Recompute` describes |
| Persist.PersistDomain.Persisted | backend/data/persist.ts:162-211 | a valid cache returns its stored outcome and changes nothing; otherwise the block runs as `Recompute` says and its outcome is cached |
| Persist.PersistDomain.Invalidate | backend/data/persist.ts:213-216 | the state becomes persisted-invalid and the cache is invalidated |
| Persist.Registry.BuildPersisted | backend/data/persist.ts:218-221 | a registered name returns its domain, whatever strategy is passed; a new name gets a fresh domain in state new, which is registered |
| Persist.Registry.PersistedWithDomainArg | backend/data/persist.ts:224-233 | the domain is looked up under the transformed name (the name itself without a transformer) and registered there; a valid cache answers with its stored outcome and changes nothing; otherwise the block for the original name runs against the domain's state and store (for a new domain, state new and the passed strategy), and its outcome, state and store are those of `Recompute` and are cached; no other registered domain changes state or cache, nor its store unless it shares this one |
| DrinkSelection.Attempt | backend/service/tipsiness.ts:82-89 | the repetition loop for one drink yields only that drink and never gives back a draw it took |
| DrinkSelection.AttemptConsistent | backend/service/tipsiness.ts:82-89 | every yield adds the drink's volume to the running sum, so the sum stays the volume of the drinks yielded |
| DrinkSelection.AttemptWithinTarget | backend/service/tipsiness.ts:85-88 | a drink is yielded only when it keeps the sum within the target, so the attempts never take the sum above it |
| DrinkSelection.FirstPass | backend/service/tipsiness.ts:80-90 | the first pass over the first `n` drinks yields only those drinks |
| DrinkSelection.FirstPassVolume | backend/service/tipsiness.ts:80-90 | the first pass's running sum is the volume it yields, and with a non-negative target it stays within the target |
| DrinkSelection.SecondPass | backend/service/tipsiness.ts:93-98 | the second pass extends the first pass's output with pool drinks in strictly increasing pool order, stays within the target and takes no draws |
| DrinkSelection.Visit | backend/service/tipsiness.ts:95-97 | one visit of the second pass yields the drink or nothing, keeps the sum the volume yielded and within the target, and takes no draw |
| DrinkSelection.Selection | backend/service/tipsiness.ts:77-104 | everything the generator yields is a drink of the pool, and an empty pool yields nothing |
| DrinkSelection.GetDrinksByMostAlc | backend/service/tipsiness.ts:77-104 | the generator run to completion yields exactly the three passes' output `Selection` |
| DrinkSelection.RunFirstPass | backend/service/tipsiness.ts:80-90 | the labelled loop with `continue first_pass` computes `FirstPass` over the whole pool |
| DrinkSelection.RunAttempts | backend/service/tipsiness.ts:82-89 | the repetition loop with `continue repetition` and early exit computes `Attempt` |
| DrinkSelection.RunSecondPass | backend/service/tipsiness.ts:93-98 | the second loop computes `SecondPass` from the first pass's state |
| DrinkSelection.BeforeThirdPassWithinTarget | backend/service/tipsiness.ts:85-95 | with a non-negative target the first two passes never exceed it, and the running sum is the volume yielded |
| DrinkSelection.AttemptOthers | backend/service/tipsiness.ts:82-89 | the attempts for a drink leave the count of every other drink unchanged |
| DrinkSelection.AttemptOwn | backend/service/tipsiness.ts:82-89 | the attempts for a drink yield it at most once per remaining attempt |
| DrinkSelection.AttemptAtMostTwice | backend/service/tipsiness.ts:82 | the attempts for a drink not yet yielded keep every drink's count within `MAX_REPETITION - 2` |
| DrinkSelection.FirstPassAtMostTwice | backend/service/tipsiness.ts:81-82 | the first pass yields no drink more than `MAX_REPETITION - 2` (two) times |
| DrinkSelection.SecondPassInOrder | backend/service/tipsiness.ts:93-98 | the second pass keeps the first pass's output as a prefix and adds each drink at most once, in pool order |
| DrinkSelection.ThirdPassCloser | backend/service/tipsiness.ts:100-103 | the last drink of the pool is yielded again exactly when overshooting with it lands nearer the target than the gap; the result's volume is then that sum plus the last drink's volume, strictly nearer the target and at most the target plus the last drink's volume, and the last drink's volume lies strictly between 0 and twice the gap; otherwise the result is unchanged and its volume stays within the target |
| DrinkSelection.EmptyPoolYieldsNothing | backend/service/tipsiness.ts:101-102 | for an empty pool `smallest` is undefined and nothing is yielded |
| DrinkSelection.FirstOccurrences | backend/service/tipsiness.ts:35-41 | the keys of the `Map`, which are exactly the drinks yielded |
| DrinkSelection.GroupByDrink | backend/service/tipsiness.ts:35-41 | the `Map` counting loop yields one entry per distinct drink in first-yield order with its count |
| DrinkSelection.GroupStep | backend/service/tipsiness.ts:36-37 | one step of the counting loop keeps the map's keys the drinks seen so far, in first-seen order, each with its count |
| DrinkSelection.FirstOccurrencesDistinct | backend/service/tipsiness.ts:35 | the `Map` holds each drink once |
| DrinkSelection.GroupedTotal | backend/service/tipsiness.ts:38 | the counts add up to the number of drinks yielded |
| DrinkSelection.GroupedEntries | backend/service/tipsiness.ts:34-41 | the grouped entries name distinct drinks, each with the positive number of times it was yielded, and the amounts add up to the length of the selection |
| Tipsiness.CalculateTargetAlcohol | backend/service/tipsiness.ts:58-60 | the target in millilitres is 0.96 times per mille times weight |
| Tipsiness.TargetScales | backend/service/tipsiness.ts:58-60 | the target is non-negative for non-negative inputs and linear in each of them |
| Tipsiness.FindMissing | backend/service/tipsiness.ts:62-67 | `find` returns nothing exactly when every name is available, and otherwise the first unavailable name |
| Tipsiness.IngredientNames | backend/service/tipsiness.ts:19 | the names of a drink's ingredients, in recipe order |
| Tipsiness.AvailableDrinks | backend/service/tipsiness.ts:14-25 | the eligible drinks are no more than the catalog |
| Tipsiness.AvailableDrinksEligibility | backend/service/tipsiness.ts:14-25 | the eligible drinks keep catalog order; with no ingredients given they are the whole catalog, otherwise a drink is eligible exactly when each ingredient is listed |
| Tipsiness.Volumes | backend/service/tipsiness.ts:85-95 | the `alcoholVolume` of each drink of the pool, in pool order |
| Tipsiness.Optimal | backend/service/tipsiness.ts:35-41 | one `{drink, amount}` per grouped entry, the drink taken from the pool |
| Tipsiness.GetOptimalDrinkAmounts | backend/service/tipsiness.ts:6-56 | the result is the grouped selection over the eligible drinks with the computed target |
| Tipsiness.OptimalAmounts | backend/service/tipsiness.ts:34-44 | every returned drink is eligible with a positive amount, and the amounts add up to the number of drinks yielded |
| LegacyTypes.Names | backend/api/services.ts:60 | the names of the available ingredients, in order |
| LegacyTypes.IngredientsOf | backend/api/services.ts:19 | the ingredients of a drink's line items, in recipe order |
| ApiServices.CountListed | backend/api/services.ts:61 | the number of ingredients whose name is listed, which equals their count exactly when all are listed |
| ApiServices.NotAvailableCounts | backend/api/services.ts:61 | the `reduce` starting at the length and subtracting one per listed name ends at the number of unlisted ingredients |
| ApiServices.AreIngredientsAvailableIff | backend/api/services.ts:56-65 | the counter is 0 exactly when every ingredient's name is the name of an available ingredient; with nothing available only a drink without ingredients passes |
| ApiServices.AvailableDrinks | backend/api/services.ts:18-19 | the eligible drinks are the catalog drinks that pass the availability test, in catalog order, with no shortcut for an empty list |
| ApiServices.Volumes | backend/api/services.ts:75-101 | the volume of each drink of the pool, in pool order |
| ApiServices.Optimal | backend/api/services.ts:29-35 | one `{drink, amount}` per grouped entry, the drink taken from the pool |
| ApiServices.GetOptimalDrinkAmounts | backend/api/services.ts:10-50 | the result is the grouped selection over the eligible drinks with the target of `calculateTargetAlcohol` |
| ApiServices.OptimalEligible | backend/api/services.ts:18-35 | every returned drink is a catalog drink whose ingredients are all available, with a positive amount; with nothing available only drinks without ingredients appear |
| SearchDrinks.SearchDrinks | backend/service/search-drinks.ts:26-30 | the search throws exactly when a concentration is given outside [0, 1], with the source's message |
| SearchDrinks.FilterByNameIff | backend/service/search-drinks.ts:15-17 | a truthy name keeps, in order, exactly the drinks whose lower-cased name contains the lower-cased query; a missing or empty one keeps all |
| SearchDrinks.FilterByIngredientsIff | backend/service/search-drinks.ts:19-24 | a given ingredient list keeps, in order, exactly the drinks all of whose ingredients are in it |
| SearchDrinks.FilterMembers | backend/service/search-drinks.ts:16-23 | `filter` keeps exactly the elements satisfying its predicate |
| SearchDrinks.SearchDrinksResult | backend/service/search-drinks.ts:13-32 | a successful search returns, in catalog order, exactly the drinks passing both filters |
| SearchDrinks.ConcentrationNotApplied | backend/service/search-drinks.ts:26-30 | a concentration within bounds removes no drink |
| SearchDrinks.NoFilters | backend/service/search-drinks.ts:13-32 | with no name and no ingredient list the whole catalog is returned |
| SearchDrinks.EmptyIngredientList | backend/service/search-drinks.ts:19-24 | an empty (but truthy) ingredient list keeps exactly the drinks without ingredients |
| Queries.And | common/src/queries.ts:16-20 | `a && b` is truthy exactly when both are, and is then `b` |
| Queries.IsTipsinessQuery | common/src/queries.ts:16-20 | the result is truthy exactly when every conjunct holds, and is then `true` |
| Queries.TipsinessQueryShape | common/src/queries.ts:16-20 | a query is accepted exactly when it is an object whose `ingredients` is an array or non-null object and whose `promille` and `weight` are truthy numbers |
| Queries.TipsinessObject | common/src/queries.ts:16-20 | a three-property query object yields its three properties back |
| Queries.TipsinessNullAndArrays | common/src/queries.ts:17 | `null` is rejected as a query and as its `ingredients`; an array of ingredients is accepted |
| Queries.TipsinessRejectsZeroAndNaN | common/src/queries.ts:18-19 | a zero or NaN `promille` or `weight` is rejected |
| Queries.TipsinessRejectsNonNumbers | common/src/queries.ts:18-19 | a non-number `promille` or `weight` is rejected |
| Queries.WithIngredients | common/src/queries.ts:17 | replacing the `ingredients` property keeps every other property and every name |
| Queries.LookupWithIngredients | common/src/queries.ts:17 | after the replacement `ingredients` reads the new value and every other name reads as before |
| Queries.TipsinessIgnoresElements | common/src/queries.ts:17 | the elements of an `ingredients` array are never inspected |
| Queries.RequestNeedsEveryConjunct | types.ts:38-42 | `objIsRequest` rejects when any one of its conjuncts fails |
| Queries.IsTruthyQuery | common/src/queries.ts:31-33 | `!!obj` is false exactly for the JavaScript falsy values |
| Queries.TruthyQueryAcceptsObjects | common/src/queries.ts:47-49 | any object or array passes `isDrinkQuery`, whatever its properties |
| Queries.TruthyQueryOnPrimitives | queries.ts:31-33 | the empty string, zero and `false` are rejected; other numbers, strings and `true` are accepted |
| Queries.IsLegacyDrinkQuery | queries.ts:46-49 | the older drink query is truthy exactly when every conjunct holds, and is then `true` |
| Queries.LegacyDrinkQueryShape | queries.ts:46-49 | accepted exactly for an object with a non-empty string `searchValue` and a truthy numeric `maxAlcoholConcentration` |
| Queries.DrinkQueryObject | queries.ts:46-49 | a two-property query object yields its two properties back |
| Queries.LegacyDrinkQueryRejections | queries.ts:46-49 | a `null`, zero or NaN concentration and an empty search value are rejected; Infinity passes |
| ArrayUtil.ArrayEquals | frontend/src/util/array.ts:1-13 | the reference check, nullish check, length check and loop answer exactly `ArraysEqual` |
| ArrayUtil.ArraysEqualSymmetric | frontend/src/util/array.ts:1-13 | the answer does not depend on the argument order |
| ArrayUtil.ArraysEqualNullish | frontend/src/util/array.ts:5-6 | equal nullish values and one reference twice are equal; `null` against `undefined` or an array is not |
| ArrayUtil.ArraysEqualLengths | frontend/src/util/array.ts:7 | arrays of different lengths are unequal unless they are one reference |
| ArrayUtil.ArraysEqualElementwise | frontend/src/util/array.ts:8-10 | elements are compared with `===`: NaN differs from NaN, +0 equals -0, and distinct nested arrays differ |
| ApiData.AggregateRows | backend/api/data.ts:184-198 | the object's keys are exactly the recorded insertion order |
| ApiData.Values | backend/api/data.ts:199 | `Object.values` lists the entries in key insertion order |
| ApiData.ParseResult | backend/api/data.ts:167-205 | the `forEach` loop, `Object.values` and the filter return exactly `ParsedDrinks` of the rows |
| ApiData.FirstRowFor | backend/api/data.ts:187-192 | the index of the first row with the id, none exactly when no row has it |
| ApiData.AggregateRowsWellFormed | backend/api/data.ts:184-198 | one drink per distinct cocktail id, keys distinct and ordered by each id's first row, named after its first row, whose ingredients are the labels of its rows in row order, duplicates kept |
| ApiData.LabelsForAbsent | backend/api/data.ts:195-197 | an id without rows collects no labels |
| ApiData.ParsedDrinksHaveIngredients | backend/api/data.ts:184-202 | every returned drink has at least one ingredient and is the drink of some id with a row: named after that id's first row, holding the labels of that id's rows |
| ApiData.ParsedDrinksFromRows | backend/api/data.ts:184-202 | the aggregated drink of an id is returned whenever some row with that id carries an ingredient label |
| ApiData.EntryCountBump | backend/api/data.ts:195-197 | pushing onto one drink adds one ingredient entry to the total |
| ApiData.EntryCountFresh | backend/api/data.ts:187-192 | creating a drink under a new id leaves the total of the others unchanged |
| ApiData.StepEntryCount | backend/api/data.ts:185-198 | one row adds one ingredient entry when it carries a label and none otherwise |
| ApiData.EntryCountIsLabelledCount | backend/api/data.ts:185-198 | the aggregate holds exactly one ingredient entry per labelled row |
| ApiData.DrinkCache.constructor | backend/api/data.ts:9 | the cache starts empty |
| ApiData.DrinkCache.GetDrinks | backend/api/data.ts:12-14 | `getDrinks` returns the cached drinks |
| ApiData.DrinkCache.FetchDrinks | backend/api/data.ts:153-163 | a successful response replaces the cache by its parse and resolves to it; a failed one rejects and leaves the cache |
| ApiData.CacheAfterFailures | backend/api/data.ts:163 | failed fetches never change what `getDrinks` returns |
| ApiData.CacheAfterLastSuccess | backend/api/data.ts:163 | after a series of fetches the cache holds the parse of the last successful one |
| DeepEqual.IndexKey | common/src/util/equal.ts:80-83 | an array index's key is a non-empty string of decimal digits |
| DeepEqual.FindIndex | common/src/util/equal.ts:98-99 | a key found among the indices names an index below the length whose key it is |
| DeepEqual.ValuesOf | common/src/util/equal.ts:98-99 | `keys.map(it => obj[it])`: one value per key, in key order |
| DeepEqual.KeyArray | common/src/util/equal.ts:90-91 | the sorted keys as a fresh array of strings, in order |
| DeepEqual.Record | common/src/util/equal.ts:61 | `memoizedComparisons.set(first, second)` records the pair under the first operand's reference |
| DeepEqual.TypeOfMismatch | common/src/util/equal.ts:25-27 | operands of different `typeof` are unequal, and nothing is recorded |
| DeepEqual.StrictEqSameType | common/src/util/equal.ts:28-30 | `===` implies the same `typeof`, so the depth cut-off after the type check loses nothing |
| DeepEqual.AtMaximumDepth | common/src/util/equal.ts:28-30 | at the maximum depth the answer is `first === second` and nothing is recorded |
| DeepEqual.DepthOneIsReference | common/src/util/equal.ts:28-30 | the walk starts at depth 1, so with `maximumDepth` 1 the top-level answer is `first === second`, as the maximum-depth test at common/src/util/equal.test.ts expects |
| DeepEqual.NumbersCompare | common/src/util/equal.ts:33-47 | NaN equals only NaN in both modes; +0 equals -0 unless numbers are compared strictly; otherwise numbers are equal exactly when they are one number |
| DeepEqual.NullishCompare | common/src/util/equal.ts:48-53 | `null` equals only `null` and `undefined` only `undefined` |
| DeepEqual.ObjectAgainstNull | common/src/util/equal.ts:51-84 | a non-null object against `null` reaches the key lookup on `null`, which throws |
| DeepEqual.MemoizedPairIsEqual | common/src/util/equal.ts:55-59 | a pair already recorded is equal without further comparison, and the record is unchanged |
| DeepEqual.ArrayShapeMismatch | common/src/util/equal.ts:61-66 | an array against a non-array or an array of another length is unequal once the pair is recorded |
| DeepEqual.PrimitiveCompare | common/src/util/equal.ts:32-49 | below the maximum depth, a primitive first operand compares by `PrimitiveEqual` and records nothing |
| DeepEqual.StringCompare | common/src/util/equal.ts:44-47 | a string equals exactly the same string, at every depth |
| DeepEqual.PrimitiveElements | common/src/util/equal.ts:68-75 | the element loop over primitives answers whether the remaining elements are pairwise equal |
| DeepEqual.ArrayOfPrimitives | common/src/util/equal.ts:63-78 | two arrays of one length of primitives are equal exactly when their elements are pairwise equal |
| DeepEqual.StringElements | common/src/util/equal.ts:68-75 | the element loop over strings answers whether the remaining elements are the same strings |
| DeepEqual.KeyArraysCompare | common/src/util/equal.ts:93-96 | comparing the two sorted key arrays answers whether the key lists are the same |
| DeepEqual.LookupPrimitive | common/src/util/equal.ts:98-99 | a property of an object of primitive values is primitive |
| DeepEqual.FlatObjectsCompare | common/src/util/equal.ts:80-102 | for an object of primitive values a different key count is unequal; otherwise the code as written answers the negation of key-and-value equality, the corrected code answers it |
| DeepEqual.ObjectBranch | common/src/util/equal.ts:55-80 | a non-recorded object below the maximum depth is recorded, then compared by its keys and values |
| DeepEqual.FlatObjectsBranch | common/src/util/equal.ts:80-102 | the key-and-value comparison of an object of primitive values, after the pair is recorded |
| DeepEqual.FlatValues | common/src/util/equal.ts:97-101 | the value arrays of two objects over the same sorted keys compare as their values pairwise |
| DeepEqual.EmptyObjectsUnequal | common/src/util/equal.ts:93-102 | as written, an empty object is not deep-equal to itself |
| DeepEqual.Single | common/src/util/equal.ts:80-84 | an object of one property has that one key and value |
| DeepEqual.SortSingle | common/src/util/equal.ts:90 | sorting one key leaves it |
| DeepEqual.DifferentObjectsEqual | common/src/util/equal.ts:93-102 | as written, `{a: x}` equals `{b: x}`, and `{a: x}` equals `{a: y}` for unequal numbers |
| DeepEqual.IntendedReflexive | common/src/util/equal.ts:19-106 | with the object branch corrected and no depth cut-off on the way, every value is deep-equal to itself |
| DeepEqual.ElementsReflexive | common/src/util/equal.ts:68-75 | the corrected element loop finds an array's elements equal to themselves |
| DeepEqual.ObjectReflexive | common/src/util/equal.ts:90-102 | the corrected object branch finds an object equal to itself |
| DeepEqual.NumberExamples | common/src/util/equal.test.ts:10-55 | the number cases of the test file hold: same-sign infinities equal, opposite signs not, NaN equals NaN, and +0 equals -0 unless strict |
| DeepEqual.DeepComparison.constructor | common/src/util/equal.ts:15-17 | a comparison starts with an empty `memoizedComparisons` map and the given options |
| DeepEqual.DeepComparison.DeepEquals0 | common/src/util/equal.ts:19-106 | each call leaves the result and the memo map that `Compare` describes, loop over the elements included |
| DeepEqual.DeepComparison.DeepEqualsObject | common/src/util/equal.ts:80-102 | the object branch leaves the result and the memo map that `CompareObjects` describes |
| DeepEqual.DeepComparison.DeepEqualsValues | common/src/util/equal.ts:93-101 | the value arrays under the sorted keys are compared one level deeper; as written a completed answer is negated, as intended it is passed through |
| DeepEqual.DeepEquals | common/src/util/equal.ts:11-109 | `deepEquals(first, second, options)` answers `DeepEqualsResult`, starting at depth 1 with an empty map |
| Traversal.SimpleTraverse | frontend/src/util/traversal.ts:12-30 | the recursive walk with its loop and early returns ends with the result and visitor state `Traverse` describes |
| Traversal.AllVisitTrace | frontend/src/util/traversal.ts:12-30 | a visitor that always answers `'visit'` sees every node in document order, `enterNode` before the children and `exitNode` after, and the walk returns false |
| Traversal.AllVisitChildrenTrace | frontend/src/util/traversal.ts:22-27 | the loop over the children walks each remaining child in order |
| Traversal.TraverseEnds | frontend/src/util/traversal.ts:13-29 | the walk returns true exactly when the last call is a `visitNode` that answered `'abort'`; otherwise the last call is the root's `exitNode`, or its `visitNode` when that answered `'no-visit'`; calls are only appended |
| Traversal.TraverseChildrenEnds | frontend/src/util/traversal.ts:22-27 | an aborting child stops its later siblings and is the last call |
| Traversal.VisitStep | frontend/src/util/traversal.ts:60-83 | the `visitNode` callback never changes the current frame |
| Traversal.EnterStep | frontend/src/util/traversal.ts:84-89 | the `enterNode` callback changes neither payload nor stack |
| Traversal.ExitStep | frontend/src/util/traversal.ts:90-95 | `exitNode` pops the top frame and keeps the payload; as written the popped frame becomes current, as intended the parent's |
| Traversal.StackBalanced | frontend/src/util/traversal.ts:78-91 | a walk that does not abort leaves the stack as it found it and an aborted walk only adds frames, so `exitNode` never meets an empty stack |
| Traversal.StackBalancedChildren | frontend/src/util/traversal.ts:22-27 | the same for the loop over the remaining children |
| Traversal.IndexAdvance | frontend/src/util/traversal.ts:110-133 | a walk that does not abort moves the index past the text of the whole subtree (the UTF-16 length of every text node in it), whatever the visitor answers |
| Traversal.IndexAdvanceChildren | frontend/src/util/traversal.ts:113 | the same for the remaining children, each text node counting its `textContent.length` in UTF-16 code units |
| Traversal.NoVisitIndex | frontend/src/util/traversal.ts:110-133 | a visitor that always answers `'no-visit'` gets back `rootIndex` plus the UTF-16 length of all the text in the tree |
| Traversal.AbortIndex | frontend/src/util/traversal.ts:118-120 | an aborted walk returns the index the aborting `visitNode` call was given, without the node's own length |
| Traversal.AbortIndexChildren | frontend/src/util/traversal.ts:118-120 | the same for the remaining children |
| Traversal.NoVisitLeaksToSiblings | frontend/src/util/traversal.ts:91 | as written, after a child answered `'no-visit'` its following sibling is never offered to the visitor |
| Traversal.ParentFrameRestored | frontend/src/util/traversal.ts:85-91 | with the parent's frame made current on exit, a walk that does not abort gives back the frame and stack it started with |
| Traversal.ParentFrameRestoredChildren | frontend/src/util/traversal.ts:22-27 | the same for the remaining children |
| Traversal.LeafWalk | frontend/src/util/traversal.ts:13-29 | a node without children is visited, then entered and exited unless it stopped there |
| Traversal.SiblingVisitedWhenRestored | frontend/src/util/traversal.ts:91 | with the parent's frame restored, the sibling that the as-written walk skips is visited, entered and exited |
| Strings.ToLower | backend/service/search-drinks.ts:16 | `toLowerCase` keeps the length and lowers each ASCII capital, leaving every other character |
| Strings.IndexOf | backend/service/search-drinks.ts:16 | the first position where the pattern occurs, none exactly when it occurs nowhere |
| Strings.IncludesIff | backend/service/search-drinks.ts:16 | `includes` holds exactly when the pattern occurs somewhere |
| Strings.RemoveFirst | backend/data/openfoodfacts.ts:20 | `replace` with a string pattern removes only its first occurrence and leaves a string without one unchanged |
| Strings.Utf16Length | frontend/src/util/traversal.ts:113 | `length` counts one code unit per character inside the basic multilingual plane and two outside it, so it lies between the character count and twice that |
| Strings.Utf16LengthAppend | frontend/src/util/traversal.ts:113 | the length of a concatenation is the sum of the lengths |
| Strings.Utf16LengthBmp | frontend/src/util/traversal.ts:113 | the length equals the character count exactly when every character lies in the basic multilingual plane |
| Strings.Utf16LengthAstral | frontend/src/util/traversal.ts:113 | a single character outside the plane, such as U+1F600, has length 2 |
| Strings.Sort | common/src/util/equal.ts:90-91 | `sort()` on strings returns a sorted permutation of the keys |
| JsValues.StrictEqSymmetric | frontend/src/util/array.ts:5 | `===` does not depend on the order of its operands |
| JsValues.SameValueVersusStrictEq | common/src/util/equal.ts:34-47 | `Object.is` and `===` disagree exactly on NaN against NaN and on the two signed zeros |
| DataUtil.KeyedMemo.constructor | backend/data/util.ts:26 | the memo starts with an empty map |
| DataUtil.Once.constructor | backend/data/util.ts:40 | nothing is cached at first |
| Wikidata.Catalog.constructor | backend/data/wikidata.ts:276 | the catalogue holds exactly the tables built from the rows |
| Persist.Store.constructor | backend/data/persist.ts:8-20 | the store holds the given results per domain |
| Persist.Registry.constructor | backend/data/persist.ts:150 | the registry of domains starts empty |

## Left out

- Network I/O is left out: `fetchDrinkData`, the HTTPS request of `fetchDrinks`, backend/data/fetch.ts, the request in `fetchAlcohol` and the image lookups. Their decoded results are inputs.
- `JSON.parse` and the SPARQL query text are left out: the model starts from decoded rows and products.
- File-system persistence is abstract: `storeData`, `retrieveData`, `mkdirSync` and serialization become a store map plus the result variant of each write.
- Promises are modelled sequentially. A promise is the value or error its block produces. The `Promise.all` in `getDrinksAndIngredients` fails with the first rejection in ingredient order. The single-flight sharing of one pending promise between concurrent callers is not modelled.
- Numbers are reals, apart from the special values of `JsValues.Number`. IEEE rounding in sums, means and the target formula is not modelled.
- `Math.random()` is a stream of reals. Nothing is assumed about its distribution.
- Logging (`console.log`) is left out, including the `resultingAlcoholVolume` sum that is only logged.
- `calculateTotalVolume` of backend/services.ts is never called and is not modelled.
- `getAllIngredients` of backend/services.ts and backend/api/services.ts only forwards to the data layer and is not modelled. backend/api/data.ts does not define the `getIngredients` that the older file imports.
- backend/api/services.ts reads `ingredient.name` from line items that backend/api/data.ts builds as `{ name }`, so the catalogue it really receives would fail there. `ApiServices` takes the record shapes that types.ts declares. Their `alcoholVolume` is a parameter, because the shape declares none.
- Strings.ToLower: lower-cases ASCII letters only. Full Unicode case mapping is not modelled.
- Traversal.TextLength: text is modelled as Unicode scalar values, so a text node holding an unpaired surrogate, which the DOM allows, cannot be represented; for all other text the index counts UTF-16 code units exactly as `textContent.length` does.
- Strings.Sort: orders by character code. The source orders by UTF-16 code unit, which differs only outside the basic multilingual plane.
- Property names are unique in an object; a lookup takes the first property of the name. JavaScript's ordering of integer-like keys in `Object.values` and `getOwnPropertyNames` is not modelled. The catalogue keys are URIs and labels, so it does not arise there.
- Values compared by `deepEquals` are acyclic trees. An optional reference identifies arrays and objects for `===` and for the memo map. Functions, symbols and their own properties are not modelled.
- DeepEqual.IntendedReflexive: proved only when the depth cut-off lies below the starting depth, as with the default `-1`. At the cut-off values compare by `===`, under which a NaN is not equal to itself.
- DeepEqual.FlatObjectsCompare: states the object branch only for objects whose property values are primitives. Nested objects follow the same code path, but the lemma does not describe them.
- OpenFoodFacts.FetchAlcoholFuelMonotone: the redirect retry has no hop limit. The model gives the lookup a fuel bound, and a lookup that needs more hops than its fuel is reported as unresolved.
- Traversal: the DOM is an abstract tree of nodes with optional text. `nodeType` is reduced to "has text".
- The UI, routing, the test runner scripts and the image lookups lie outside the core and are not modelled.

## Findings

| source | as written | input that shows it | evidently intended | confidence | as-written member | corrected member |
|---|---|---|---|---|---|---|
| common/src/util/equal.ts:93-102 | the object branch returns true when the keys or the values differ, the negation of what it means | `deepEquals({}, {})` and `deepEquals(o, o)` for an empty object `o` are false; `deepEquals({a: 1}, {b: 1})` is true | true exactly when both the keys and the values are equal | not executed | DeepEqual.EmptyObjectsUnequal | DeepEqual.IntendedReflexive |
| frontend/src/util/traversal.ts:91 | `exitNode` makes the frame it popped current | root with children `a` and `b`, the visitor answering `'visit'` for the root and `'no-visit'` for `a`: `b` is never offered to the visitor | make the parent's frame, now on top of the stack, current | not executed | Traversal.NoVisitLeaksToSiblings | Traversal.ParentFrameRestored |
