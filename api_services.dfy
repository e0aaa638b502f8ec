/**
 * The older `getOptimalDrinkAmounts` of backend/api/services.ts. It has no shortcut for an empty
 * list of available ingredients, and it tests availability by counting. The target formula and
 * the selector have the same text as in backend/service/tipsiness.ts.
 *
 * The drink shape of types.ts declares no alcohol volume, so the volume of each drink is a
 * parameter, `alcoholVolume`.
 */
module ApiServices {
  import opened Seqs
  import opened DrinkSelection
  import opened LegacyTypes
  import Tipsiness

  /** The number of ingredients in `check` whose name is in `names`. */
  function CountListed(check: seq<Ingredient>, names: seq<string>): (c: nat)
    ensures c <= |check|
    ensures c == |check| <==> forall k :: 0 <= k < |check| ==> check[k].name in names
    decreases |check|
  {
    if check == [] then 0
    else
      var prefix := check[..|check| - 1];
      var c := CountListed(prefix, names);
      assert forall k :: 0 <= k < |prefix| ==> prefix[k] == check[k];
      c + (if check[|check| - 1].name in names then 1 else 0)
  }

  /**
   * `checkIngredients.reduce((count, ingredient) => count - +names.includes(ingredient.name),
   * checkIngredients.length)`, after the first `n` ingredients.
   */
  function NotAvailableAfter(check: seq<Ingredient>, names: seq<string>, n: nat): int
    requires n <= |check|
    decreases n
  {
    if n == 0 then |check|
    else NotAvailableAfter(check, names, n - 1) - (if check[n - 1].name in names then 1 else 0)
  }

  /** The fold ends at the number of ingredients whose name is not listed. */
  lemma {:induction false} NotAvailableCounts(check: seq<Ingredient>, names: seq<string>, n: nat)
    requires n <= |check|
    ensures NotAvailableAfter(check, names, n) == |check| - CountListed(check[..n], names)
    decreases n
  {
    if n > 0 {
      NotAvailableCounts(check, names, n - 1);
      assert check[..n][..n - 1] == check[..n - 1];
    }
  }

  /** `areIngredientsAvailable(checkIngredients, availableIngredients)`: the count of missing ones is 0. */
  predicate AreIngredientsAvailable(check: seq<Ingredient>, available: seq<Ingredient>) {
    NotAvailableAfter(check, Names(available), |check|) == 0
  }

  /**
   * A drink's ingredients are available exactly when each of their names is the name of an
   * available ingredient; with none available, only a drink without ingredients passes.
   */
  lemma AreIngredientsAvailableIff(check: seq<Ingredient>, available: seq<Ingredient>)
    ensures AreIngredientsAvailable(check, available) <==>
      forall k :: 0 <= k < |check| ==> exists j :: 0 <= j < |available| && available[j].name == check[k].name
    ensures available == [] ==> (AreIngredientsAvailable(check, available) <==> check == [])
  {
    var names := Names(available);
    NotAvailableCounts(check, names, |check|);
    assert check[..|check|] == check;
    if available == [] && check != [] {
      assert check[0].name !in names;
    }
  }

  /** The eligible drinks, in catalog order; there is no shortcut for an empty list. */
  function AvailableDrinks(allDrinks: seq<Drink>, available: seq<Ingredient>): (r: seq<Drink>)
    ensures IsSubseq(r, allDrinks)
    ensures forall d :: d in allDrinks && AreIngredientsAvailable(IngredientsOf(d), available) ==> d in r
    ensures forall d :: d in r ==> AreIngredientsAvailable(IngredientsOf(d), available)
  {
    var p := (d: Drink) => AreIngredientsAvailable(IngredientsOf(d), available);
    FilterIsSubseq(allDrinks, p);
    var r := Filter(allDrinks, p);
    assert forall d :: d in r ==> p(d) by {
      forall d | d in r ensures p(d) {
        var i :| 0 <= i < |r| && r[i] == d;
      }
    }
    assert forall d :: d in allDrinks && p(d) ==> d in r by {
      forall d | d in allDrinks && p(d) ensures d in r {
        var i :| 0 <= i < |allDrinks| && allDrinks[i] == d;
      }
    }
    r
  }

  /** `{ drink, amount }`; `amountAlcohol` is never set. */
  datatype DrinkAmount = DrinkAmount(drink: Drink, amount: nat)

  function Volumes(pool: seq<Drink>, alcoholVolume: Drink -> real): (r: seq<real>)
    ensures |r| == |pool| && forall k :: 0 <= k < |pool| ==> r[k] == alcoholVolume(pool[k])
  {
    seq(|pool|, k requires 0 <= k < |pool| => alcoholVolume(pool[k]))
  }

  /** The grouped selection, with each pool index replaced by its drink. */
  function Optimal(pool: seq<Drink>, alcoholVolume: Drink -> real, target: real, draw: nat -> real): (r: seq<DrinkAmount>)
    ensures var entries := Grouped(Selection(target, Volumes(pool, alcoholVolume), draw));
      |r| == |entries| &&
      forall k :: 0 <= k < |r| ==> entries[k].drink < |pool| && r[k] == DrinkAmount(pool[entries[k].drink], entries[k].amount)
  {
    var sel := Selection(target, Volumes(pool, alcoholVolume), draw);
    var entries := Grouped(sel);
    assert forall k :: 0 <= k < |entries| ==> entries[k].drink < |pool| by {
      forall k | 0 <= k < |entries| ensures entries[k].drink < |pool| {
        var keys := FirstOccurrences(sel);
        assert keys[k] in keys;
        assert keys[k] in sel;
      }
    }
    seq(|entries|, k requires 0 <= k < |entries| => DrinkAmount(pool[entries[k].drink], entries[k].amount))
  }

  /** `getOptimalDrinkAmounts(availableIngredients, promille, weight)` over the catalog `allDrinks`. */
  method GetOptimalDrinkAmounts(allDrinks: seq<Drink>, availableIngredients: seq<Ingredient>, promille: real, weight: real,
                                alcoholVolume: Drink -> real, draw: nat -> real)
    returns (optimal: seq<DrinkAmount>)
    ensures optimal == Optimal(AvailableDrinks(allDrinks, availableIngredients), alcoholVolume,
                               Tipsiness.CalculateTargetAlcohol(promille, weight), draw)
  {
    var availableDrinks := AvailableDrinks(allDrinks, availableIngredients);
    var targetAlcoholMl := Tipsiness.CalculateTargetAlcohol(promille, weight);
    var emitted := GetDrinksByMostAlc(targetAlcoholMl, Volumes(availableDrinks, alcoholVolume), draw);
    var entries := GroupByDrink(emitted);
    // Naming the specification here lets the solver unfold it once against the three calls above.
    ghost var expected := Optimal(availableDrinks, alcoholVolume, targetAlcoholMl, draw);
    optimal := seq(|entries|, k requires 0 <= k < |entries| => DrinkAmount(availableDrinks[entries[k].drink], entries[k].amount));
  }

  /**
   * Every drink of the result is eligible and was yielded, as often as its amount says; with no
   * ingredients available only drinks without ingredients can appear.
   */
  lemma OptimalEligible(allDrinks: seq<Drink>, available: seq<Ingredient>, alcoholVolume: Drink -> real,
                        target: real, draw: nat -> real)
    ensures var r := Optimal(AvailableDrinks(allDrinks, available), alcoholVolume, target, draw);
      forall k :: 0 <= k < |r| ==>
        && r[k].drink in allDrinks
        && AreIngredientsAvailable(IngredientsOf(r[k].drink), available)
        && r[k].amount > 0
        && (available == [] ==> r[k].drink.ingredients == [])
  {
    var pool := AvailableDrinks(allDrinks, available);
    var sel := Selection(target, Volumes(pool, alcoholVolume), draw);
    GroupedEntries(sel);
    var r := Optimal(pool, alcoholVolume, target, draw);
    forall k | 0 <= k < |r|
      ensures r[k].drink in allDrinks && AreIngredientsAvailable(IngredientsOf(r[k].drink), available)
      ensures available == [] ==> r[k].drink.ingredients == []
    {
      assert r[k].drink in pool;
      SubseqMembers(pool, allDrinks, r[k].drink);
      AreIngredientsAvailableIff(IngredientsOf(r[k].drink), available);
    }
  }
}
