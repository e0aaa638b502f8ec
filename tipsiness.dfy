/**
 * `getOptimalDrinkAmounts` of backend/service/tipsiness.ts, with `calculateTargetAlcohol` and
 * `areIngredientsAvailable`. backend/services.ts defines these three functions with the same
 * text, so they are stated once here.
 *
 * The catalog is the list of drinks the data layer produces; an ingredient of a line item is
 * named by its label, which is the ingredient's name.
 */
module Tipsiness {
  import opened Wrappers
  import opened Seqs
  import opened DrinkSelection
  import Wikidata

  /** Millilitres of alcohol per gram. */
  const AlcoholGramToMl: real := 1.6

  /** Grams of alcohol per kilogram of body weight and per mille. */
  const BodyWaterFactor: real := 0.6

  /** `calculateTargetAlcohol(targetPromille, weightKg)`, in millilitres of alcohol. */
  function CalculateTargetAlcohol(targetPromille: real, weightKg: real): (r: real)
    ensures r == 0.96 * targetPromille * weightKg
  {
    targetPromille * (weightKg * BodyWaterFactor) * AlcoholGramToMl
  }

  /** The target is non-negative for a non-negative per mille and weight, and doubles with either. */
  lemma TargetScales(promille: real, weight: real)
    ensures 0.0 <= promille && 0.0 <= weight ==> 0.0 <= CalculateTargetAlcohol(promille, weight)
    ensures CalculateTargetAlcohol(2.0 * promille, weight) == 2.0 * CalculateTargetAlcohol(promille, weight)
    ensures CalculateTargetAlcohol(promille, 2.0 * weight) == 2.0 * CalculateTargetAlcohol(promille, weight)
  {
    if 0.0 <= promille && 0.0 <= weight {
      assert 0.0 <= promille * weight;
    }
  }

  /** `checkIngredients.find(it => !availableIngredients.includes(it.name))`, by name. */
  function FindMissing(check: seq<string>, available: seq<string>): (r: Option<string>)
    ensures r.None? <==> forall k :: 0 <= k < |check| ==> check[k] in available
    ensures r.Some? ==> r.value in check && r.value !in available
    ensures r.Some? ==> exists k :: 0 <= k < |check| && check[k] == r.value && forall j :: 0 <= j < k ==> check[j] in available
    decreases |check|
  {
    if check == [] then None
    else if check[0] !in available then Some(check[0])
    else
      var r := FindMissing(check[1..], available);
      assert forall k :: 1 <= k < |check| ==> check[k] == check[1..][k - 1];
      if r.Some? then
        assert exists k :: 1 <= k < |check| && check[k] == r.value && forall j :: 0 <= j < k ==> check[j] in available by {
          var k :| 0 <= k < |check[1..]| && check[1..][k] == r.value && forall j :: 0 <= j < k ==> check[1..][j] in available;
          assert check[k + 1] == r.value;
        }
        r
      else r
  }

  /** Every ingredient to check is available. */
  predicate AreIngredientsAvailable(check: seq<string>, available: seq<string>) {
    FindMissing(check, available).None?
  }

  /** The names of a drink's ingredients, in recipe order. */
  function IngredientNames(d: Wikidata.Drink): (r: seq<string>)
    ensures |r| == |d.ingredients|
    ensures forall k :: 0 <= k < |r| ==> r[k] == d.ingredients[k].ingredient
  {
    seq(|d.ingredients|, k requires 0 <= k < |d.ingredients| => d.ingredients[k].ingredient)
  }

  /** An empty list of available ingredients makes every drink eligible; otherwise all its ingredients must be listed. */
  function AvailableDrinks(allDrinks: seq<Wikidata.Drink>, availableIngredients: seq<string>): (r: seq<Wikidata.Drink>)
    ensures |r| <= |allDrinks|
  {
    if |availableIngredients| > 0 then
      Filter(allDrinks, (d: Wikidata.Drink) => AreIngredientsAvailable(IngredientNames(d), availableIngredients))
    else allDrinks
  }

  /**
   * The eligible drinks keep the catalog order. With no ingredients given they are the whole
   * catalog; otherwise a drink of the catalog is eligible exactly when each of its ingredients is
   * in the list.
   */
  lemma AvailableDrinksEligibility(allDrinks: seq<Wikidata.Drink>, available: seq<string>)
    ensures IsSubseq(AvailableDrinks(allDrinks, available), allDrinks)
    ensures |available| == 0 ==> AvailableDrinks(allDrinks, available) == allDrinks
    ensures |available| > 0 ==> forall d :: d in allDrinks ==>
      (d in AvailableDrinks(allDrinks, available) <==>
        forall k :: 0 <= k < |d.ingredients| ==> d.ingredients[k].ingredient in available)
  {
    if |available| > 0 {
      var p := (d: Wikidata.Drink) => AreIngredientsAvailable(IngredientNames(d), available);
      FilterIsSubseq(allDrinks, p);
      var r := Filter(allDrinks, p);
      forall d | d in allDrinks
        ensures d in r <==> forall k :: 0 <= k < |d.ingredients| ==> d.ingredients[k].ingredient in available
      {
        var names := IngredientNames(d);
        if d in r {
          var i :| 0 <= i < |r| && r[i] == d;
          assert p(r[i]);
        } else {
          var i :| 0 <= i < |allDrinks| && allDrinks[i] == d;
          assert !p(allDrinks[i]);
          var missing := FindMissing(names, available).value;
          var k :| 0 <= k < |names| && names[k] == missing;
          assert d.ingredients[k].ingredient !in available;
        }
      }
    } else {
      IsSubseqRefl(allDrinks);
    }
  }

  /** The `alcoholVolume` of each drink of the pool. */
  function Volumes(pool: seq<Wikidata.Drink>): (r: seq<real>)
    ensures |r| == |pool| && forall k :: 0 <= k < |pool| ==> r[k] == pool[k].alcoholVolume
  {
    seq(|pool|, k requires 0 <= k < |pool| => pool[k].alcoholVolume)
  }

  /** `{ drink, amount }`. */
  datatype DrinkAmount = DrinkAmount(drink: Wikidata.Drink, amount: nat)

  /** The grouped selection, with each pool index replaced by its drink. */
  function Optimal(pool: seq<Wikidata.Drink>, target: real, draw: nat -> real): (r: seq<DrinkAmount>)
    ensures var entries := Grouped(Selection(target, Volumes(pool), draw));
      |r| == |entries| &&
      forall k :: 0 <= k < |r| ==> entries[k].drink < |pool| && r[k] == DrinkAmount(pool[entries[k].drink], entries[k].amount)
  {
    var sel := Selection(target, Volumes(pool), draw);
    var entries := Grouped(sel);
    assert forall k :: 0 <= k < |entries| ==> entries[k].drink < |pool| by {
      forall k | 0 <= k < |entries| ensures entries[k].drink < |pool| {
        var keys := FirstOccurrences(sel);
        assert keys[k] in keys;
        assert keys[k] in sel;
      }
    }
    seq(|entries|, k requires 0 <= k < |entries| => DrinkAmount(pool[entries[k].drink], entries[k].amount))
  }

  /**
   * `getOptimalDrinkAmounts(availableIngredients, promille, weight)` over the catalog
   * `allDrinks`: the eligible drinks, the target, the selection and its grouping by drink.
   */
  method GetOptimalDrinkAmounts(allDrinks: seq<Wikidata.Drink>, availableIngredients: seq<string>,
                                promille: real, weight: real, draw: nat -> real)
    returns (optimal: seq<DrinkAmount>)
    ensures optimal == Optimal(AvailableDrinks(allDrinks, availableIngredients), CalculateTargetAlcohol(promille, weight), draw)
  {
    var availableDrinks := AvailableDrinks(allDrinks, availableIngredients);
    var targetAlcoholMl := CalculateTargetAlcohol(promille, weight);
    var emitted := GetDrinksByMostAlc(targetAlcoholMl, Volumes(availableDrinks), draw);
    var entries := GroupByDrink(emitted);
    // Naming the specification here lets the solver unfold it once against the three calls above.
    ghost var expected := Optimal(availableDrinks, targetAlcoholMl, draw);
    optimal := seq(|entries|, k requires 0 <= k < |entries| => DrinkAmount(availableDrinks[entries[k].drink], entries[k].amount));
  }

  /**
   * Each drink of the result is an eligible drink; the amounts count how often the selection
   * yielded it and add up to the length of the selection.
   */
  lemma OptimalAmounts(allDrinks: seq<Wikidata.Drink>, available: seq<string>, promille: real, weight: real, draw: nat -> real)
    ensures var pool := AvailableDrinks(allDrinks, available);
      var sel := Selection(CalculateTargetAlcohol(promille, weight), Volumes(pool), draw);
      var r := Optimal(pool, CalculateTargetAlcohol(promille, weight), draw);
      && (forall k :: 0 <= k < |r| ==> r[k].drink in pool && r[k].amount > 0)
      && SumCounts(FirstOccurrences(sel), sel) == |sel|
  {
    var pool := AvailableDrinks(allDrinks, available);
    var sel := Selection(CalculateTargetAlcohol(promille, weight), Volumes(pool), draw);
    GroupedEntries(sel);
  }
}
