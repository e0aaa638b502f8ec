/**
 * `searchDrinks` of backend/service/search-drinks.ts; backend/services.ts defines it with the
 * same filters and bounds check (and a log line). The filters are applied in turn to the catalog
 * `drinks`; a maximum alcohol concentration is only checked, never applied.
 */
module SearchDrinks {
  import opened Wrappers
  import opened Strings
  import opened Seqs
  import Wikidata
  import Tipsiness

  const OutOfBounds: string := "Alcohol concentration is out of bounds"

  /** The name filter: the lower-cased name contains the lower-cased query. */
  predicate NameMatches(d: Wikidata.Drink, drinkName: string) {
    Includes(ToLower(d.name), ToLower(drinkName))
  }

  /** The ingredient filter: no ingredient of the drink is missing from the permitted names. */
  predicate OnlyPermitted(d: Wikidata.Drink, permissible: seq<string>) {
    Tipsiness.AreIngredientsAvailable(Tipsiness.IngredientNames(d), permissible)
  }

  /** The drinks a truthy `drinkName` keeps; an absent or empty one keeps all. */
  function FilterByName(drinks: seq<Wikidata.Drink>, drinkName: Option<string>): seq<Wikidata.Drink> {
    if drinkName.Some? && drinkName.value != "" then Filter(drinks, (d: Wikidata.Drink) => NameMatches(d, drinkName.value))
    else drinks
  }

  /** The drinks a present `ingredients` array keeps (an empty array is truthy too). */
  function FilterByIngredients(drinks: seq<Wikidata.Drink>, ingredients: Option<seq<string>>): seq<Wikidata.Drink> {
    if ingredients.Some? then Filter(drinks, (d: Wikidata.Drink) => OnlyPermitted(d, ingredients.value))
    else drinks
  }

  /** `searchDrinks({ drinkName, maxAlcoholConcentration, ingredients })`; the thrown error is `Err`. */
  function SearchDrinks(drinks: seq<Wikidata.Drink>, drinkName: Option<string>, maxAlcoholConcentration: Option<real>,
                        ingredients: Option<seq<string>>): (r: Result<seq<Wikidata.Drink>>)
    ensures r.Err? <==> maxAlcoholConcentration.Some? && (maxAlcoholConcentration.value < 0.0 || maxAlcoholConcentration.value > 1.0)
    ensures r.Err? ==> r.error == OutOfBounds
  {
    var byName := FilterByName(drinks, drinkName);
    var byIngredients := FilterByIngredients(byName, ingredients);
    if maxAlcoholConcentration.Some? && (maxAlcoholConcentration.value < 0.0 || maxAlcoholConcentration.value > 1.0) then
      Err(OutOfBounds)
    else
      Ok(byIngredients)
  }

  /** The name filter keeps the catalog order, and keeps a drink exactly when it matches. */
  lemma FilterByNameIff(drinks: seq<Wikidata.Drink>, drinkName: Option<string>)
    ensures IsSubseq(FilterByName(drinks, drinkName), drinks)
    ensures forall d :: d in drinks ==>
      (d in FilterByName(drinks, drinkName) <==> drinkName.None? || drinkName.value == "" || NameMatches(d, drinkName.value))
    ensures forall d :: d in FilterByName(drinks, drinkName) ==> d in drinks
  {
    if drinkName.Some? && drinkName.value != "" {
      var p := (d: Wikidata.Drink) => NameMatches(d, drinkName.value);
      FilterIsSubseq(drinks, p);
      FilterMembers(drinks, p);
    } else {
      IsSubseqRefl(drinks);
    }
  }

  /** The ingredient filter keeps the order, and keeps a drink exactly when all its ingredients are permitted. */
  lemma FilterByIngredientsIff(drinks: seq<Wikidata.Drink>, ingredients: Option<seq<string>>)
    ensures IsSubseq(FilterByIngredients(drinks, ingredients), drinks)
    ensures forall d :: d in drinks ==>
      (d in FilterByIngredients(drinks, ingredients) <==>
        ingredients.None? || forall k :: 0 <= k < |d.ingredients| ==> d.ingredients[k].ingredient in ingredients.value)
    ensures forall d :: d in FilterByIngredients(drinks, ingredients) ==> d in drinks
  {
    if ingredients.Some? {
      var p := (d: Wikidata.Drink) => OnlyPermitted(d, ingredients.value);
      FilterIsSubseq(drinks, p);
      FilterMembers(drinks, p);
      forall d | d in drinks
        ensures p(d) <==> forall k :: 0 <= k < |d.ingredients| ==> d.ingredients[k].ingredient in ingredients.value
      {
        var names := Tipsiness.IngredientNames(d);
        if !p(d) {
          var missing := Tipsiness.FindMissing(names, ingredients.value).value;
          var k :| 0 <= k < |names| && names[k] == missing;
          assert d.ingredients[k].ingredient !in ingredients.value;
        }
      }
    } else {
      IsSubseqRefl(drinks);
    }
  }

  lemma FilterMembers(drinks: seq<Wikidata.Drink>, p: Wikidata.Drink -> bool)
    ensures forall d :: d in Filter(drinks, p) <==> d in drinks && p(d)
  {
    var r := Filter(drinks, p);
    forall d | d in r ensures d in drinks && p(d) {
      var i :| 0 <= i < |r| && r[i] == d;
    }
    forall d | d in drinks && p(d) ensures d in r {
      var i :| 0 <= i < |drinks| && drinks[i] == d;
    }
  }

  /**
   * A successful search returns the drinks of the catalog that pass both filters, in catalog
   * order.
   */
  lemma SearchDrinksResult(drinks: seq<Wikidata.Drink>, drinkName: Option<string>, maxAlc: Option<real>,
                           ingredients: Option<seq<string>>)
    requires SearchDrinks(drinks, drinkName, maxAlc, ingredients).Ok?
    ensures var r := SearchDrinks(drinks, drinkName, maxAlc, ingredients).value;
      && IsSubseq(r, drinks)
      && forall d :: d in drinks ==>
        (d in r <==>
          && (drinkName.None? || drinkName.value == "" || NameMatches(d, drinkName.value))
          && (ingredients.None? || forall k :: 0 <= k < |d.ingredients| ==> d.ingredients[k].ingredient in ingredients.value))
  {
    var byName := FilterByName(drinks, drinkName);
    FilterByNameIff(drinks, drinkName);
    FilterByIngredientsIff(byName, ingredients);
    IsSubseqTrans(FilterByIngredients(byName, ingredients), byName, drinks);
  }

  /** A concentration within [0, 1] removes no drink: the result is the one without it. */
  lemma ConcentrationNotApplied(drinks: seq<Wikidata.Drink>, drinkName: Option<string>, v: real,
                                ingredients: Option<seq<string>>)
    requires 0.0 <= v <= 1.0
    ensures SearchDrinks(drinks, drinkName, Some(v), ingredients) == SearchDrinks(drinks, drinkName, None, ingredients)
  {
  }

  /** Without a name and without an ingredient list, the whole catalog is returned. */
  lemma NoFilters(drinks: seq<Wikidata.Drink>, drinkName: Option<string>)
    requires drinkName.None? || drinkName.value == ""
    ensures SearchDrinks(drinks, drinkName, None, None) == Ok(drinks)
  {
  }

  /** An empty ingredient list keeps exactly the drinks without ingredients. */
  lemma EmptyIngredientList(drinks: seq<Wikidata.Drink>)
    ensures forall d :: d in drinks ==>
      (d in SearchDrinks(drinks, None, None, Some([])).value <==> d.ingredients == [])
  {
    FilterByIngredientsIff(drinks, Some([]));
    forall d | d in drinks && d.ingredients != []
      ensures d.ingredients[0].ingredient !in []
    {
    }
  }
}
