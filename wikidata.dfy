/**
 * backend/data/wikidata.ts: the catalogue built from the flat rows of the cocktail query.
 *
 * `toDrinksAndIngredients` regroups the rows into one drink per cocktail id and one ingredient
 * per ingredient label, appending one line item per accepted row. `enrichAlcohol` fills in a
 * missing alcohol value from the category lookup, and `accumulateTotal` sums a drink's alcohol.
 *
 * In the source each line item holds a reference to its ingredient object, and `enrichAlcohol`
 * updates that shared object in place. Here a line item holds the ingredient's label, which is
 * the key of the ingredient map, so reading the ingredient through the map sees every update
 * exactly as the shared object would.
 */
module Wikidata {
  import opened Wrappers
  import opened DataUtil

  /** One decoded result row; every optional binding of the query is an `Option`. */
  datatype Row = Row(
    cocktail: string,
    cocktailLabel: string,
    alcohol: Option<real>,
    imageUrl: Option<string>,
    ingredientAmount: Option<real>,
    ingredientLabel: Option<string>,
    ingredientUnitLabel: Option<string>,
    offCategory: Option<string>)

  datatype Ingredient = Ingredient(name: string, category: Option<string>, alcohol: real)

  /** An ingredient amount; `ingredient` is the label of the ingredient it refers to. */
  datatype LineItem = LineItem(ingredient: string, amount: real, unit: string)

  datatype Drink = Drink(name: string, image: Option<string>, ingredients: seq<LineItem>, alcoholVolume: real)

  /**
   * The two maps of `toDrinksAndIngredients`, each with its keys in insertion order (the order in
   * which a JavaScript `Map` yields its values).
   */
  datatype Tables = Tables(
    drinkIds: seq<string>,
    drinks: map<string, Drink>,
    labels: seq<string>,
    ingredients: map<string, Ingredient>)

  const EmptyTables: Tables := Tables([], map[], [], map[])

  /**
   * A row that contributes: all three ingredient bindings are present and the amount is
   * positive. (The loop tests the normalized value for `<= 0`; `Normalize` keeps the sign, so
   * this is the same test.)
   */
  predicate Accepted(row: Row) {
    && row.ingredientLabel.Some?
    && row.ingredientAmount.Some?
    && row.ingredientUnitLabel.Some?
    && row.ingredientAmount.value > 0.0
  }

  function ItemOf(row: Row): (item: LineItem)
    requires Accepted(row)
    ensures item.amount > 0.0
  {
    var a := Normalize(row.ingredientAmount.value, row.ingredientUnitLabel.value);
    LineItem(row.ingredientLabel.value, a.val, a.unit)
  }

  function NewDrink(row: Row): Drink {
    Drink(row.cocktailLabel, row.imageUrl, [], 0.0)
  }

  /** The ingredient the first row of a label creates: the alcohol binding divided by 100, else 0. */
  function NewIngredient(row: Row): Ingredient
    requires row.ingredientLabel.Some?
  {
    Ingredient(row.ingredientLabel.value, row.offCategory, if row.alcohol.Some? then row.alcohol.value / 100.0 else 0.0)
  }

  /** The drink of the row's cocktail, created with no line items when it is not yet in the map. */
  function WithDrink(t: Tables, row: Row): Tables {
    var id := row.cocktail;
    if id in t.drinks then t
    else t.(drinkIds := t.drinkIds + [id], drinks := t.drinks[id := NewDrink(row)])
  }

  /** The ingredient of the row's label, created when it is not yet in the map. */
  function WithIngredient(t: Tables, row: Row): Tables
    requires row.ingredientLabel.Some?
  {
    var key := row.ingredientLabel.value;
    if key in t.ingredients then t
    else t.(labels := t.labels + [key], ingredients := t.ingredients[key := NewIngredient(row)])
  }

  /** The row's line item appended to its drink; duplicates are not merged. */
  function WithItem(t: Tables, row: Row): Tables
    requires Accepted(row) && row.cocktail in t.drinks
  {
    var d := t.drinks[row.cocktail];
    t.(drinks := t.drinks[row.cocktail := d.(ingredients := d.ingredients + [ItemOf(row)])])
  }

  /** One iteration of the loop over the rows. */
  function Step(t: Tables, row: Row): Tables {
    if !Accepted(row) then t
    else WithItem(WithIngredient(WithDrink(t, row), row), row)
  }

  /** The maps after the loop has gone through all of `rows`. */
  function Build(rows: seq<Row>): Tables
    decreases |rows|
  {
    if rows == [] then EmptyTables
    else Step(Build(rows[..|rows| - 1]), rows[|rows| - 1])
  }

  /** `toDrinksAndIngredients`: the loop over the rows, filling the two maps. */
  method ToDrinksAndIngredients(rows: seq<Row>) returns (t: Tables)
    ensures t == Build(rows)
  {
    var drinkIds: seq<string> := [];
    var drinks: map<string, Drink> := map[];
    var labels: seq<string> := [];
    var ingredients: map<string, Ingredient> := map[];
    var i := 0;
    while i < |rows|
      invariant 0 <= i <= |rows|
      invariant Tables(drinkIds, drinks, labels, ingredients) == Build(rows[..i])
    {
      var row := rows[i];
      assert rows[..i + 1][..i] == rows[..i];
      if row.ingredientLabel.None? || row.ingredientAmount.None? || row.ingredientUnitLabel.None? {
        // the row is skipped
      } else if Normalize(row.ingredientAmount.value, row.ingredientUnitLabel.value).val <= 0.0 {
        // the row is skipped
      } else {
        var amount := Normalize(row.ingredientAmount.value, row.ingredientUnitLabel.value);
        var id := row.cocktail;
        if id !in drinks {
          drinks := drinks[id := Drink(row.cocktailLabel, row.imageUrl, [], 0.0)];
          drinkIds := drinkIds + [id];
        }
        var key := row.ingredientLabel.value;
        if key !in ingredients {
          var alcohol := if row.alcohol.Some? then row.alcohol.value / 100.0 else 0.0;
          ingredients := ingredients[key := Ingredient(key, row.offCategory, alcohol)];
          labels := labels + [key];
        }
        var drink := drinks[id];
        drinks := drinks[id := drink.(ingredients := drink.ingredients + [LineItem(key, amount.val, amount.unit)])];
      }
      i := i + 1;
    }
    assert rows[..i] == rows;
    t := Tables(drinkIds, drinks, labels, ingredients);
  }

  /** The values of `m` in the order of `keys`: `[...map.values()]`. */
  function ValuesInOrder<V>(keys: seq<string>, m: map<string, V>): (r: seq<V>)
    requires forall k :: 0 <= k < |keys| ==> keys[k] in m
    ensures |r| == |keys| && forall k :: 0 <= k < |keys| ==> r[k] == m[keys[k]]
  {
    seq(|keys|, k requires 0 <= k < |keys| => m[keys[k]])
  }

  // ---------------------------------------------------------------------------------------
  // What the rows determine.

  /** The keys of a map listed once each, in a sequence. */
  ghost predicate KeysListed<V>(keys: seq<string>, m: map<string, V>) {
    Distinct(keys) && forall key :: key in m <==> key in keys
  }

  /**
   * The invariant of the two maps: keys listed once each, every ingredient stored under its own
   * name, every drink with at least one line item, every line item's ingredient present, and no
   * alcohol total accumulated yet.
   */
  ghost predicate WellFormed(t: Tables) {
    && KeysListed(t.drinkIds, t.drinks)
    && KeysListed(t.labels, t.ingredients)
    && (forall key :: key in t.ingredients ==> t.ingredients[key].name == key)
    && (forall id :: id in t.drinks ==> |t.drinks[id].ingredients| >= 1 && t.drinks[id].alcoholVolume == 0.0)
    && (forall id :: id in t.drinks ==> ItemsKnown(t.drinks[id].ingredients, t.ingredients))
  }

  /** The alcohol of every line item of a drink is known. */
  predicate ItemsKnown(items: seq<LineItem>, ingredients: map<string, Ingredient>) {
    forall k :: 0 <= k < |items| ==> items[k].ingredient in ingredients
  }

  lemma ItemsKnownGrow(items: seq<LineItem>, small: map<string, Ingredient>, large: map<string, Ingredient>)
    requires ItemsKnown(items, small) && small.Keys <= large.Keys
    ensures ItemsKnown(items, large)
  {
  }

  /** The invariant without "at least one line item", which holds between the stages of a step. */
  ghost predicate Loose(t: Tables) {
    && KeysListed(t.drinkIds, t.drinks)
    && KeysListed(t.labels, t.ingredients)
    && (forall key :: key in t.ingredients ==> t.ingredients[key].name == key)
    && (forall id :: id in t.drinks ==> t.drinks[id].alcoholVolume == 0.0)
    && (forall id :: id in t.drinks ==> ItemsKnown(t.drinks[id].ingredients, t.ingredients))
  }

  lemma WithDrinkLoose(t: Tables, row: Row)
    requires Loose(t)
    ensures Loose(WithDrink(t, row)) && row.cocktail in WithDrink(t, row).drinks
    ensures forall x :: x in t.drinks ==> x in WithDrink(t, row).drinks && WithDrink(t, row).drinks[x] == t.drinks[x]
    ensures WithDrink(t, row).labels == t.labels && WithDrink(t, row).ingredients == t.ingredients
  {
    if row.cocktail !in t.drinks {
      DistinctAppend(t.drinkIds, row.cocktail);
    }
  }

  lemma WithIngredientLoose(t: Tables, row: Row)
    requires Loose(t) && row.ingredientLabel.Some?
    ensures Loose(WithIngredient(t, row)) && row.ingredientLabel.value in WithIngredient(t, row).ingredients
    ensures WithIngredient(t, row).drinkIds == t.drinkIds && WithIngredient(t, row).drinks == t.drinks
  {
    var t2 := WithIngredient(t, row);
    if row.ingredientLabel.value !in t.ingredients {
      DistinctAppend(t.labels, row.ingredientLabel.value);
    }
    forall x | x in t2.drinks ensures ItemsKnown(t2.drinks[x].ingredients, t2.ingredients) {
      ItemsKnownGrow(t.drinks[x].ingredients, t.ingredients, t2.ingredients);
    }
  }

  lemma WithItemWellFormed(t: Tables, row: Row)
    requires Loose(t) && Accepted(row) && row.cocktail in t.drinks && row.ingredientLabel.value in t.ingredients
    requires forall x :: x in t.drinks && x != row.cocktail ==> |t.drinks[x].ingredients| >= 1
    ensures WellFormed(WithItem(t, row))
  {
    var d := t.drinks[row.cocktail];
    var d' := d.(ingredients := d.ingredients + [ItemOf(row)]);
    assert ItemsKnown(d'.ingredients, t.ingredients) by {
      forall k | 0 <= k < |d'.ingredients| ensures d'.ingredients[k].ingredient in t.ingredients {
        if k < |d.ingredients| {
          assert d'.ingredients[k] == d.ingredients[k];
        }
      }
    }
    assert WithItem(t, row) == t.(drinks := t.drinks[row.cocktail := d']);
  }

  /** One iteration keeps the invariant. */
  lemma StepWellFormed(t: Tables, row: Row)
    requires WellFormed(t)
    ensures WellFormed(Step(t, row))
  {
    if Accepted(row) {
      var t1 := WithDrink(t, row);
      WithDrinkLoose(t, row);
      var t2 := WithIngredient(t1, row);
      WithIngredientLoose(t1, row);
      WithItemWellFormed(t2, row);
    }
  }

  lemma {:induction false} BuildWellFormed(rows: seq<Row>)
    ensures WellFormed(Build(rows))
    decreases |rows|
  {
    if rows != [] {
      BuildWellFormed(rows[..|rows| - 1]);
      StepWellFormed(Build(rows[..|rows| - 1]), rows[|rows| - 1]);
    }
  }

  predicate RowFor(row: Row, id: string) {
    Accepted(row) && row.cocktail == id
  }

  predicate RowWithLabel(row: Row, key: string) {
    Accepted(row) && row.ingredientLabel.value == key
  }

  /** The first accepted row of the cocktail `id`. */
  function FirstRowFor(rows: seq<Row>, id: string): (k: Option<nat>)
    ensures k.Some? ==> k.value < |rows| && RowFor(rows[k.value], id)
    ensures k.Some? ==> forall j :: 0 <= j < k.value ==> !RowFor(rows[j], id)
    ensures k.None? <==> forall j :: 0 <= j < |rows| ==> !RowFor(rows[j], id)
    decreases |rows|
  {
    if rows == [] then None
    else
      var prefix := rows[..|rows| - 1];
      assert forall j :: 0 <= j < |prefix| ==> prefix[j] == rows[j];
      match FirstRowFor(prefix, id)
      case Some(k) => Some(k)
      case None => if RowFor(rows[|rows| - 1], id) then Some(|rows| - 1) else None
  }

  /** The first accepted row with ingredient label `key`. */
  function FirstRowWithLabel(rows: seq<Row>, key: string): (k: Option<nat>)
    ensures k.Some? ==> k.value < |rows| && RowWithLabel(rows[k.value], key)
    ensures k.Some? ==> forall j :: 0 <= j < k.value ==> !RowWithLabel(rows[j], key)
    ensures k.None? <==> forall j :: 0 <= j < |rows| ==> !RowWithLabel(rows[j], key)
    decreases |rows|
  {
    if rows == [] then None
    else
      var prefix := rows[..|rows| - 1];
      assert forall j :: 0 <= j < |prefix| ==> prefix[j] == rows[j];
      match FirstRowWithLabel(prefix, key)
      case Some(k) => Some(k)
      case None => if RowWithLabel(rows[|rows| - 1], key) then Some(|rows| - 1) else None
  }

  /** The line items of the accepted rows of cocktail `id`, in row order. */
  function ItemsFor(rows: seq<Row>, id: string): (r: seq<LineItem>)
    decreases |rows|
  {
    if rows == [] then []
    else
      var last := rows[|rows| - 1];
      ItemsFor(rows[..|rows| - 1], id) + (if RowFor(last, id) then [ItemOf(last)] else [])
  }

  lemma {:induction false} ItemsForEmpty(rows: seq<Row>, id: string)
    ensures ItemsFor(rows, id) == [] <==> FirstRowFor(rows, id).None?
    decreases |rows|
  {
    if rows != [] {
      ItemsForEmpty(rows[..|rows| - 1], id);
    }
  }

  /**
   * One drink per cocktail id with an accepted row. Its name and image come from the first
   * accepted row, its line items are those of all its accepted rows in order (duplicates are
   * appended, never merged), and its alcohol total is 0.
   */
  lemma {:induction false} BuildDrinks(rows: seq<Row>, id: string)
    ensures id in Build(rows).drinks <==> FirstRowFor(rows, id).Some?
    ensures id in Build(rows).drinks ==>
      var first := rows[FirstRowFor(rows, id).value];
      Build(rows).drinks[id] == Drink(first.cocktailLabel, first.imageUrl, ItemsFor(rows, id), 0.0)
    decreases |rows|
  {
    if rows != [] {
      var prefix := rows[..|rows| - 1];
      BuildDrinks(prefix, id);
      ItemsForEmpty(prefix, id);
    }
  }

  /**
   * One ingredient per accepted label; its category and alcohol (the binding divided by 100,
   * else 0) come from the first accepted row with that label and are never updated by later rows.
   */
  lemma {:induction false} BuildIngredients(rows: seq<Row>, key: string)
    ensures key in Build(rows).ingredients <==> FirstRowWithLabel(rows, key).Some?
    ensures key in Build(rows).ingredients ==>
      Build(rows).ingredients[key] == NewIngredient(rows[FirstRowWithLabel(rows, key).value])
    decreases |rows|
  {
    if rows != [] {
      BuildIngredients(rows[..|rows| - 1], key);
    }
  }

  /** Every id of `ids` has an accepted row, and the ids are ordered by their first accepted rows. */
  ghost predicate InFirstRowOrder(rows: seq<Row>, ids: seq<string>) {
    && (forall k :: 0 <= k < |ids| ==> FirstRowFor(rows, ids[k]).Some?)
    && (forall i, j :: 0 <= i < j < |ids| ==> FirstRowFor(rows, ids[i]).value < FirstRowFor(rows, ids[j]).value)
  }

  /** The drinks are listed in the order of their first accepted rows. */
  lemma {:induction false} BuildDrinkOrder(rows: seq<Row>)
    ensures InFirstRowOrder(rows, Build(rows).drinkIds)
    decreases |rows|
  {
    if rows != [] {
      var prefix := rows[..|rows| - 1];
      var last := rows[|rows| - 1];
      BuildDrinkOrder(prefix);
      var ids := Build(rows).drinkIds;
      var oldIds := Build(prefix).drinkIds;
      assert InFirstRowOrder(prefix, oldIds);
      forall k | 0 <= k < |oldIds| ensures FirstRowFor(rows, oldIds[k]) == FirstRowFor(prefix, oldIds[k]) {
        assert FirstRowFor(prefix, oldIds[k]).Some?;
      }
      if ids != oldIds {
        assert ids == oldIds + [last.cocktail];
        BuildDrinks(prefix, last.cocktail);
        assert FirstRowFor(rows, last.cocktail) == Some(|rows| - 1);
        forall i, j | 0 <= i < j < |ids|
          ensures FirstRowFor(rows, ids[i]).value < FirstRowFor(rows, ids[j]).value
        {
          assert ids[i] == oldIds[i];
          if j < |oldIds| {
            assert ids[j] == oldIds[j];
          }
        }
      }
    }
  }

  /** Every label of `keys` has an accepted row, and the labels are ordered by their first accepted rows. */
  ghost predicate InFirstLabelOrder(rows: seq<Row>, keys: seq<string>) {
    && (forall k :: 0 <= k < |keys| ==> FirstRowWithLabel(rows, keys[k]).Some?)
    && (forall i, j :: 0 <= i < j < |keys| ==> FirstRowWithLabel(rows, keys[i]).value < FirstRowWithLabel(rows, keys[j]).value)
  }

  /** The ingredients are listed in the order of the first accepted rows carrying their labels. */
  lemma {:induction false} BuildIngredientOrder(rows: seq<Row>)
    ensures InFirstLabelOrder(rows, Build(rows).labels)
    decreases |rows|
  {
    if rows != [] {
      var prefix := rows[..|rows| - 1];
      var last := rows[|rows| - 1];
      BuildIngredientOrder(prefix);
      var keys := Build(rows).labels;
      var oldKeys := Build(prefix).labels;
      assert InFirstLabelOrder(prefix, oldKeys);
      forall k | 0 <= k < |oldKeys| ensures FirstRowWithLabel(rows, oldKeys[k]) == FirstRowWithLabel(prefix, oldKeys[k]) {
        assert FirstRowWithLabel(prefix, oldKeys[k]).Some?;
      }
      if keys != oldKeys {
        assert Accepted(last);
        var key := last.ingredientLabel.value;
        assert keys == oldKeys + [key];
        BuildIngredients(prefix, key);
        assert FirstRowWithLabel(rows, key) == Some(|rows| - 1);
        forall i, j | 0 <= i < j < |keys|
          ensures FirstRowWithLabel(rows, keys[i]).value < FirstRowWithLabel(rows, keys[j]).value
        {
          assert keys[i] == oldKeys[i];
          if j < |oldKeys| {
            assert keys[j] == oldKeys[j];
          }
        }
      }
    }
  }

  /** The number of accepted rows. */
  function AcceptedCount(rows: seq<Row>): nat
    decreases |rows|
  {
    if rows == [] then 0
    else AcceptedCount(rows[..|rows| - 1]) + (if Accepted(rows[|rows| - 1]) then 1 else 0)
  }

  /** The number of line items of the drinks listed in `ids`. */
  function ItemCount(ids: seq<string>, drinks: map<string, Drink>): nat
    requires forall k :: 0 <= k < |ids| ==> ids[k] in drinks
    decreases |ids|
  {
    if ids == [] then 0
    else ItemCount(ids[..|ids| - 1], drinks) + |drinks[ids[|ids| - 1]].ingredients|
  }

  lemma {:induction false} ItemCountOther(ids: seq<string>, drinks: map<string, Drink>, id: string, d: Drink)
    requires forall k :: 0 <= k < |ids| ==> ids[k] in drinks
    requires id !in ids
    ensures ItemCount(ids, drinks[id := d]) == ItemCount(ids, drinks)
    decreases |ids|
  {
    if ids != [] {
      ItemCountOther(ids[..|ids| - 1], drinks, id, d);
    }
  }

  lemma {:induction false} ItemCountGrow(ids: seq<string>, drinks: map<string, Drink>, id: string, d: Drink)
    requires forall k :: 0 <= k < |ids| ==> ids[k] in drinks
    requires Distinct(ids) && id in ids
    requires |d.ingredients| == |drinks[id].ingredients| + 1
    ensures ItemCount(ids, drinks[id := d]) == ItemCount(ids, drinks) + 1
    decreases |ids|
  {
    var prefix := ids[..|ids| - 1];
    if ids[|ids| - 1] == id {
      assert id !in prefix;
      ItemCountOther(prefix, drinks, id, d);
    } else {
      ItemCountGrow(prefix, drinks, id, d);
    }
  }

  lemma WithDrinkItemCount(t: Tables, row: Row)
    requires Loose(t)
    ensures Loose(WithDrink(t, row))
    ensures ItemCount(WithDrink(t, row).drinkIds, WithDrink(t, row).drinks) == ItemCount(t.drinkIds, t.drinks)
  {
    WithDrinkLoose(t, row);
    var id := row.cocktail;
    if id !in t.drinks {
      var t1 := WithDrink(t, row);
      ItemCountOther(t.drinkIds, t.drinks, id, NewDrink(row));
      assert t1.drinkIds[..|t1.drinkIds| - 1] == t.drinkIds;
    }
  }

  lemma WithItemItemCount(t: Tables, row: Row)
    requires Loose(t) && Accepted(row) && row.cocktail in t.drinks
    ensures ItemCount(WithItem(t, row).drinkIds, WithItem(t, row).drinks) == ItemCount(t.drinkIds, t.drinks) + 1
  {
    var d := t.drinks[row.cocktail];
    ItemCountGrow(t.drinkIds, t.drinks, row.cocktail, d.(ingredients := d.ingredients + [ItemOf(row)]));
  }

  /** One iteration adds one line item for an accepted row and none otherwise. */
  lemma StepItemCount(t: Tables, row: Row)
    requires WellFormed(t)
    ensures WellFormed(Step(t, row))
    ensures ItemCount(Step(t, row).drinkIds, Step(t, row).drinks) == ItemCount(t.drinkIds, t.drinks) + if Accepted(row) then 1 else 0
  {
    StepWellFormed(t, row);
    if Accepted(row) {
      var t1 := WithDrink(t, row);
      WithDrinkItemCount(t, row);
      WithDrinkLoose(t, row);
      var t2 := WithIngredient(t1, row);
      WithIngredientLoose(t1, row);
      WithItemItemCount(t2, row);
      assert Step(t, row) == WithItem(t2, row);
    }
  }

  /** Exactly one line item per accepted row: nothing is merged and nothing is dropped. */
  lemma {:induction false} BuildItemCount(rows: seq<Row>)
    ensures WellFormed(Build(rows))
    ensures ItemCount(Build(rows).drinkIds, Build(rows).drinks) == AcceptedCount(rows)
    decreases |rows|
  {
    if rows == [] {
      assert Build(rows) == EmptyTables;
    } else {
      var prefix := rows[..|rows| - 1];
      BuildItemCount(prefix);
      StepItemCount(Build(prefix), rows[|rows| - 1]);
    }
  }

  // ---------------------------------------------------------------------------------------
  // `enrichAlcohol` and `accumulateTotal`.

  /**
   * Whether `enrichAlcohol` consults the lookup: the alcohol is 0 (falsy) and the category is
   * present and non-empty (truthy).
   */
  predicate NeedsLookup(ing: Ingredient) {
    ing.alcohol == 0.0 && ing.category.Some? && ing.category.value != ""
  }

  /**
   * The ingredient after `enrichAlcohol`; `lookup` is the category's alcohol lookup (the
   * OpenFoodFacts query), and its error rejects the call.
   */
  function Enrich(ing: Ingredient, lookup: string -> Result<real>): (r: Result<Ingredient>)
    ensures !NeedsLookup(ing) ==> r == Ok(ing)
    ensures NeedsLookup(ing) ==> r.Ok? == lookup(ing.category.value).Ok?
    ensures r.Ok? ==> r.value.name == ing.name && r.value.category == ing.category
    ensures r.Ok? && NeedsLookup(ing) ==> r.value.alcohol == lookup(ing.category.value).value
  {
    if !NeedsLookup(ing) then Ok(ing)
    else
      var alcohol :- lookup(ing.category.value);
      Ok(ing.(alcohol := alcohol))
  }

  /** An enriched ingredient with a non-zero alcohol is never looked up again. */
  lemma EnrichSettles(ing: Ingredient, lookup: string -> Result<real>)
    requires Enrich(ing, lookup).Ok? && Enrich(ing, lookup).value.alcohol != 0.0
    ensures Enrich(Enrich(ing, lookup).value, lookup) == Enrich(ing, lookup)
  {
  }


  /** The `reduce` of `accumulateTotal`: Σ amount × alcohol / 100, from left to right. */
  function AlcoholSum(items: seq<LineItem>, ingredients: map<string, Ingredient>): real
    requires ItemsKnown(items, ingredients)
    decreases |items|
  {
    if items == [] then 0.0
    else
      var last := items[|items| - 1];
      AlcoholSum(items[..|items| - 1], ingredients) + last.amount * ingredients[last.ingredient].alcohol / 100.0
  }

  /** The total is additive over a split of the line items. */
  lemma {:induction false} AlcoholSumAppend(a: seq<LineItem>, b: seq<LineItem>, ingredients: map<string, Ingredient>)
    requires ItemsKnown(a, ingredients) && ItemsKnown(b, ingredients)
    ensures ItemsKnown(a + b, ingredients)
    ensures AlcoholSum(a + b, ingredients) == AlcoholSum(a, ingredients) + AlcoholSum(b, ingredients)
    decreases |b|
  {
    assert ItemsKnown(a + b, ingredients) by {
      forall k | 0 <= k < |a + b| ensures (a + b)[k].ingredient in ingredients {
        if k >= |a| { assert (a + b)[k] == b[k - |a|]; }
      }
    }
    if b == [] {
      assert a + b == a;
    } else {
      assert (a + b)[..|a + b| - 1] == a + b[..|b| - 1];
      assert (a + b)[|a + b| - 1] == b[|b| - 1];
      AlcoholSumAppend(a, b[..|b| - 1], ingredients);
    }
  }

  /** With non-negative amounts and alcohol values the total is non-negative. */
  lemma {:induction false} AlcoholSumNonNegative(items: seq<LineItem>, ingredients: map<string, Ingredient>)
    requires ItemsKnown(items, ingredients)
    requires forall k :: 0 <= k < |items| ==> items[k].amount >= 0.0
    requires forall key :: key in ingredients ==> ingredients[key].alcohol >= 0.0
    ensures AlcoholSum(items, ingredients) >= 0.0
    decreases |items|
  {
    if items != [] {
      var last := items[|items| - 1];
      AlcoholSumNonNegative(items[..|items| - 1], ingredients);
      assert last.amount * ingredients[last.ingredient].alcohol >= 0.0;
    }
  }

  /**
   * An ingredient whose alcohol came from a row binding `p` contributes `amount × p / 10000`:
   * the binding is scaled by 1/100 twice, once when the ingredient is created and once in the sum.
   */
  lemma AlcoholScaledTwice(row: Row, amount: real, p: real)
    requires row.ingredientLabel.Some? && row.alcohol == Some(p)
    ensures var key := row.ingredientLabel.value;
      AlcoholSum([LineItem(key, amount, "ml")], map[key := NewIngredient(row)]) == amount * p / 10000.0
  {
    var key := row.ingredientLabel.value;
    var items := [LineItem(key, amount, "ml")];
    assert items[..0] == [];
  }

  /** The drink after `accumulateTotal`: only `alcoholVolume` changes, to the sum. */
  function Accumulate(d: Drink, ingredients: map<string, Ingredient>): (r: Drink)
    requires ItemsKnown(d.ingredients, ingredients)
    ensures r.name == d.name && r.image == d.image && r.ingredients == d.ingredients
  {
    d.(alcoholVolume := AlcoholSum(d.ingredients, ingredients))
  }

  /** `accumulateTotal` is idempotent. */
  lemma AccumulateIdempotent(d: Drink, ingredients: map<string, Ingredient>)
    requires ItemsKnown(d.ingredients, ingredients)
    ensures Accumulate(Accumulate(d, ingredients), ingredients) == Accumulate(d, ingredients)
  {
  }

  /** Every ingredient of `labels` enriched in turn; the first rejection rejects it all. */
  function EnrichAll(ingredients: map<string, Ingredient>, labels: seq<string>, lookup: string -> Result<real>)
    : (r: Result<map<string, Ingredient>>)
    requires forall k :: 0 <= k < |labels| ==> labels[k] in ingredients
    ensures r.Ok? ==> r.value.Keys == ingredients.Keys
    decreases |labels|
  {
    if labels == [] then Ok(ingredients)
    else
      var m :- EnrichAll(ingredients, labels[..|labels| - 1], lookup);
      var key := labels[|labels| - 1];
      var ing :- Enrich(m[key], lookup);
      Ok(m[key := ing])
  }

  /**
   * Enriching distinct labels enriches each of them from its original value and leaves every
   * other ingredient as it is; it fails exactly when one of the lookups it needs fails.
   */
  lemma {:induction false} EnrichAllEach(ingredients: map<string, Ingredient>, labels: seq<string>, lookup: string -> Result<real>)
    requires forall k :: 0 <= k < |labels| ==> labels[k] in ingredients
    requires Distinct(labels)
    ensures EnrichAll(ingredients, labels, lookup).Ok? <==>
      forall k :: 0 <= k < |labels| ==> Enrich(ingredients[labels[k]], lookup).Ok?
    ensures EnrichAll(ingredients, labels, lookup).Ok? ==>
      var m := EnrichAll(ingredients, labels, lookup).value;
      && (forall k :: 0 <= k < |labels| ==> m[labels[k]] == Enrich(ingredients[labels[k]], lookup).value)
      && (forall key :: key in ingredients && key !in labels ==> m[key] == ingredients[key])
    decreases |labels|
  {
    if labels != [] {
      var prefix := labels[..|labels| - 1];
      var key := labels[|labels| - 1];
      assert forall k :: 0 <= k < |prefix| ==> prefix[k] == labels[k];
      EnrichAllEach(ingredients, prefix, lookup);
      var r0 := EnrichAll(ingredients, prefix, lookup);
      if r0.Err? {
        assert EnrichAll(ingredients, labels, lookup).Err?;
        var k :| 0 <= k < |prefix| && !Enrich(ingredients[prefix[k]], lookup).Ok?;
        assert labels[k] == prefix[k];
      } else {
        assert key !in prefix;
        var m := r0.value;
        assert m[key] == ingredients[key];
        var e := Enrich(ingredients[key], lookup);
        if e.Err? {
          assert EnrichAll(ingredients, labels, lookup).Err?;
        } else {
          assert EnrichAll(ingredients, labels, lookup) == Ok(m[key := e.value]);
          EnrichedStep(m, ingredients, labels, lookup);
        }
      }
    }
  }

  /** Enriching one more label extends what holds of the prefix to all of `labels`. */
  lemma EnrichedStep(m: map<string, Ingredient>, ingredients: map<string, Ingredient>, labels: seq<string>,
                     lookup: string -> Result<real>)
    requires labels != [] && forall k :: 0 <= k < |labels| ==> labels[k] in ingredients
    requires m.Keys == ingredients.Keys
    requires Enrich(ingredients[labels[|labels| - 1]], lookup).Ok?
    requires forall k :: 0 <= k < |labels| - 1 ==> Enrich(ingredients[labels[k]], lookup).Ok?
    requires forall k :: 0 <= k < |labels| - 1 ==> m[labels[k]] == Enrich(ingredients[labels[k]], lookup).value
    requires forall key :: key in ingredients && key !in labels[..|labels| - 1] ==> m[key] == ingredients[key]
    ensures var m' := m[labels[|labels| - 1] := Enrich(ingredients[labels[|labels| - 1]], lookup).value];
      && (forall k :: 0 <= k < |labels| ==> Enrich(ingredients[labels[k]], lookup).Ok?)
      && (forall k :: 0 <= k < |labels| ==> m'[labels[k]] == Enrich(ingredients[labels[k]], lookup).value)
      && (forall key :: key in ingredients && key !in labels ==> m'[key] == ingredients[key])
  {
  }

  /** Once a prefix of the labels is rejected, so is the whole enrichment, with the same error. */
  lemma {:induction false} EnrichAllRejected(ingredients: map<string, Ingredient>, labels: seq<string>, k: nat, lookup: string -> Result<real>)
    requires forall j :: 0 <= j < |labels| ==> labels[j] in ingredients
    requires k <= |labels| && EnrichAll(ingredients, labels[..k], lookup).Err?
    ensures EnrichAll(ingredients, labels, lookup) == EnrichAll(ingredients, labels[..k], lookup)
    decreases |labels|
  {
    if k < |labels| {
      var prefix := labels[..|labels| - 1];
      assert prefix[..k] == labels[..k];
      EnrichAllRejected(ingredients, prefix, k, lookup);
    } else {
      assert labels[..k] == labels;
    }
  }

  /** `accumulateTotal` applied to every drink of `ids`. */
  function AccumulateAll(drinks: map<string, Drink>, ids: seq<string>, ingredients: map<string, Ingredient>)
    : (r: map<string, Drink>)
    requires forall k :: 0 <= k < |ids| ==> ids[k] in drinks
    requires forall id :: id in drinks ==> ItemsKnown(drinks[id].ingredients, ingredients)
    ensures r.Keys == drinks.Keys
    ensures forall id :: id in r ==> r[id] == drinks[id].(alcoholVolume := r[id].alcoholVolume)
    decreases |ids|
  {
    if ids == [] then drinks
    else
      var m := AccumulateAll(drinks, ids[..|ids| - 1], ingredients);
      var id := ids[|ids| - 1];
      m[id := Accumulate(m[id], ingredients)]
  }

  /** `m` is `drinks` with every drink of `ids` accumulated and every other drink as it was. */
  ghost predicate AccumulatedAt(m: map<string, Drink>, drinks: map<string, Drink>, ids: seq<string>, ingredients: map<string, Ingredient>)
    requires forall id :: id in drinks ==> ItemsKnown(drinks[id].ingredients, ingredients)
  {
    && m.Keys == drinks.Keys
    && (forall id :: id in drinks && id in ids ==> m[id] == Accumulate(drinks[id], ingredients))
    && (forall id :: id in drinks && id !in ids ==> m[id] == drinks[id])
  }

  /** Accumulating one more listed drink extends the accumulated prefix. */
  lemma AccumulatedStep(m0: map<string, Drink>, drinks: map<string, Drink>, ids: seq<string>,
                        ingredients: map<string, Ingredient>, m: map<string, Drink>)
    requires forall x :: x in drinks ==> ItemsKnown(drinks[x].ingredients, ingredients)
    requires ids != [] && ids[|ids| - 1] in drinks && AccumulatedAt(m0, drinks, ids[..|ids| - 1], ingredients)
    requires m == m0[ids[|ids| - 1] := Accumulate(drinks[ids[|ids| - 1]], ingredients)]
    ensures AccumulatedAt(m, drinks, ids, ingredients)
  {
    var prefix, id := ids[..|ids| - 1], ids[|ids| - 1];
    forall x | x in drinks && x in ids ensures m[x] == Accumulate(drinks[x], ingredients) {
      if x != id {
        var k :| 0 <= k < |ids| && ids[k] == x;
        assert prefix[k] == x;
      }
    }
    forall x | x in drinks && x !in ids ensures m[x] == drinks[x] {
      assert x !in prefix;
    }
  }

  /** Accumulating a drink a second time leaves it as the first time did. */
  lemma AccumulatedAgain(m0: map<string, Drink>, drinks: map<string, Drink>, prefix: seq<string>, id: string,
                         ingredients: map<string, Ingredient>)
    requires forall x :: x in drinks ==> ItemsKnown(drinks[x].ingredients, ingredients)
    requires id in drinks && AccumulatedAt(m0, drinks, prefix, ingredients)
    ensures ItemsKnown(m0[id].ingredients, ingredients)
    ensures Accumulate(m0[id], ingredients) == Accumulate(drinks[id], ingredients)
  {
    if id in prefix {
      AccumulateIdempotent(drinks[id], ingredients);
    }
  }

  /** One more listed drink: the map so far with that drink accumulated once more. */
  lemma AccumulateAllLast(drinks: map<string, Drink>, ids: seq<string>, ingredients: map<string, Ingredient>)
    requires ids != [] && forall k :: 0 <= k < |ids| ==> ids[k] in drinks
    requires forall id :: id in drinks ==> ItemsKnown(drinks[id].ingredients, ingredients)
    ensures var m0 := AccumulateAll(drinks, ids[..|ids| - 1], ingredients);
      AccumulateAll(drinks, ids, ingredients) == m0[ids[|ids| - 1] := Accumulate(m0[ids[|ids| - 1]], ingredients)]
  {
  }

  /** After the accumulation every listed drink carries the sum over its own line items. */
  lemma {:induction false} AccumulateAllEach(drinks: map<string, Drink>, ids: seq<string>, ingredients: map<string, Ingredient>)
    requires forall k :: 0 <= k < |ids| ==> ids[k] in drinks
    requires forall id :: id in drinks ==> ItemsKnown(drinks[id].ingredients, ingredients)
    ensures AccumulatedAt(AccumulateAll(drinks, ids, ingredients), drinks, ids, ingredients)
    decreases |ids|
  {
    if ids != [] {
      var prefix := ids[..|ids| - 1];
      var id := ids[|ids| - 1];
      AccumulateAllEach(drinks, prefix, ingredients);
      AccumulateAllLast(drinks, ids, ingredients);
      AccumulatedAgain(AccumulateAll(drinks, prefix, ingredients), drinks, prefix, id, ingredients);
      AccumulatedStep(AccumulateAll(drinks, prefix, ingredients), drinks, ids, ingredients, AccumulateAll(drinks, ids, ingredients));
    }
  }

  /**
   * The body `once` wraps in `getDrinksAndIngredients`, after the fetch: build the catalogue,
   * enrich every ingredient, then accumulate every drink. The result pairs the drink list with
   * the ingredient list.
   */
  function Pipeline(rows: seq<Row>, lookup: string -> Result<real>): Result<(seq<Drink>, seq<Ingredient>)> {
    var t := Build(rows);
    BuildWellFormed(rows);
    var ingredients :- EnrichAll(t.ingredients, t.labels, lookup);
    var drinks := AccumulateAll(t.drinks, t.drinkIds, ingredients);
    Ok((ValuesInOrder(t.drinkIds, drinks), ValuesInOrder(t.labels, ingredients)))
  }

  /** When the pipeline succeeds, every ingredient is its enriched self, in insertion order. */
  lemma PipelineIngredients(rows: seq<Row>, lookup: string -> Result<real>)
    requires Pipeline(rows, lookup).Ok?
    ensures WellFormed(Build(rows))
    ensures var t := Build(rows);
      var ingredients := Pipeline(rows, lookup).value.1;
      && |ingredients| == |t.labels|
      && forall k :: 0 <= k < |t.labels| ==>
           Enrich(t.ingredients[t.labels[k]], lookup).Ok? &&
           ingredients[k] == Enrich(t.ingredients[t.labels[k]], lookup).value
  {
    var t := Build(rows);
    BuildWellFormed(rows);
    EnrichAllEach(t.ingredients, t.labels, lookup);
  }

  /** The drink list of the pipeline, read off the accumulated map in the order of `ids`. */
  lemma DrinksInOrder(drinks: map<string, Drink>, ids: seq<string>, enriched: map<string, Ingredient>, values: seq<Drink>)
    requires forall k :: 0 <= k < |ids| ==> ids[k] in drinks
    requires forall id :: id in drinks ==> ItemsKnown(drinks[id].ingredients, enriched)
    requires values == ValuesInOrder(ids, AccumulateAll(drinks, ids, enriched))
    ensures |values| == |ids|
    ensures forall k :: 0 <= k < |ids| ==>
      values[k].ingredients == drinks[ids[k]].ingredients &&
      values[k].alcoholVolume == AlcoholSum(values[k].ingredients, enriched)
  {
    var m := AccumulateAll(drinks, ids, enriched);
    AccumulateAllEach(drinks, ids, enriched);
    forall k | 0 <= k < |ids|
      ensures values[k] == Accumulate(drinks[ids[k]], enriched)
    {
      assert ids[k] in drinks;
    }
  }

  /**
   * When the pipeline succeeds, every drink is the built drink carrying the sum over its line
   * items of the enriched alcohol values, in insertion order.
   */
  lemma PipelineTotals(rows: seq<Row>, lookup: string -> Result<real>)
    requires Pipeline(rows, lookup).Ok?
    ensures WellFormed(Build(rows))
    ensures EnrichAll(Build(rows).ingredients, Build(rows).labels, lookup).Ok?
    ensures var t := Build(rows);
      forall id :: id in t.drinks ==> ItemsKnown(t.drinks[id].ingredients, EnrichAll(t.ingredients, t.labels, lookup).value)
    ensures var t := Build(rows);
      var enriched := EnrichAll(t.ingredients, t.labels, lookup).value;
      var drinks := Pipeline(rows, lookup).value.0;
      && |drinks| == |t.drinkIds|
      && forall k :: 0 <= k < |t.drinkIds| ==>
           drinks[k].ingredients == t.drinks[t.drinkIds[k]].ingredients &&
           drinks[k].alcoholVolume == AlcoholSum(drinks[k].ingredients, enriched)
  {
    var t := Build(rows);
    BuildWellFormed(rows);
    var enriched := EnrichAll(t.ingredients, t.labels, lookup).value;
    forall id | id in t.drinks ensures ItemsKnown(t.drinks[id].ingredients, enriched) {
      ItemsKnownGrow(t.drinks[id].ingredients, t.ingredients, enriched);
    }
    DrinksInOrder(t.drinks, t.drinkIds, enriched, Pipeline(rows, lookup).value.0);
  }

  /** The catalogue objects `enrichAlcohol` and `accumulateTotal` update in place. */
  class Catalog {
    var drinkIds: seq<string>
    var drinks: map<string, Drink>
    var labels: seq<string>
    var ingredients: map<string, Ingredient>

    function Contents(): Tables
      reads this
    {
      Tables(drinkIds, drinks, labels, ingredients)
    }

    constructor (t: Tables)
      ensures Contents() == t
    {
      drinkIds, drinks, labels, ingredients := t.drinkIds, t.drinks, t.labels, t.ingredients;
    }

    /** `enrichAlcohol(ingredient)`: only that ingredient's alcohol may change. */
    method EnrichAlcohol(key: string, lookup: string -> Result<real>) returns (r: Result<()>)
      requires key in ingredients
      modifies this
      ensures drinkIds == old(drinkIds) && drinks == old(drinks) && labels == old(labels)
      ensures r.Ok? <==> Enrich(old(ingredients)[key], lookup).Ok?
      ensures r.Ok? ==> ingredients == old(ingredients)[key := Enrich(old(ingredients)[key], lookup).value]
      ensures r.Err? ==> r == Enrich(old(ingredients)[key], lookup).PropagateFailure() && ingredients == old(ingredients)
    {
      var ingredient := ingredients[key];
      if ingredient.alcohol != 0.0 {
        return Ok(());
      }
      if ingredient.category.None? || ingredient.category.value == "" {
        return Ok(());
      }
      var alcohol := lookup(ingredient.category.value);
      if alcohol.Err? {
        return Err(alcohol.error);
      }
      ingredients := ingredients[key := ingredient.(alcohol := alcohol.value)];
      r := Ok(());
    }

    /** `accumulateTotal(drink)`: only that drink's `alcoholVolume` changes. */
    method AccumulateTotal(id: string)
      requires id in drinks && ItemsKnown(drinks[id].ingredients, ingredients)
      modifies this
      ensures drinkIds == old(drinkIds) && labels == old(labels) && ingredients == old(ingredients)
      ensures drinks == old(drinks)[id := Accumulate(old(drinks)[id], ingredients)]
    {
      var drink := drinks[id];
      drinks := drinks[id := drink.(alcoholVolume := AlcoholSum(drink.ingredients, ingredients))];
    }
  }

  /** `ingredients.map(enrichAlcohol)` under `Promise.all`: the first rejection rejects all. */
  method EnrichEvery(catalog: Catalog, lookup: string -> Result<real>) returns (r: Result<()>)
    requires forall k :: 0 <= k < |catalog.labels| ==> catalog.labels[k] in catalog.ingredients
    modifies catalog
    ensures catalog.drinkIds == old(catalog.drinkIds) && catalog.drinks == old(catalog.drinks)
    ensures catalog.labels == old(catalog.labels)
    ensures r.Ok? <==> EnrichAll(old(catalog.ingredients), catalog.labels, lookup).Ok?
    ensures r.Ok? ==> catalog.ingredients == EnrichAll(old(catalog.ingredients), catalog.labels, lookup).value
    ensures r.Err? ==> r.error == EnrichAll(old(catalog.ingredients), catalog.labels, lookup).error
  {
    var labels := catalog.labels;
    var k := 0;
    while k < |labels|
      invariant 0 <= k <= |labels|
      invariant catalog.drinkIds == old(catalog.drinkIds) && catalog.drinks == old(catalog.drinks)
      invariant catalog.labels == labels
      invariant EnrichAll(old(catalog.ingredients), labels[..k], lookup) == Ok(catalog.ingredients)
    {
      assert labels[..k + 1][..k] == labels[..k];
      var enriched := catalog.EnrichAlcohol(labels[k], lookup);
      if enriched.Err? {
        EnrichAllRejected(old(catalog.ingredients), labels, k + 1, lookup);
        return Err(enriched.error);
      }
      k := k + 1;
    }
    assert labels[..k] == labels;
    r := Ok(());
  }

  /** `drinks.forEach(accumulateTotal)`. */
  method AccumulateEvery(catalog: Catalog)
    requires forall k :: 0 <= k < |catalog.drinkIds| ==> catalog.drinkIds[k] in catalog.drinks
    requires forall id :: id in catalog.drinks ==> ItemsKnown(catalog.drinks[id].ingredients, catalog.ingredients)
    modifies catalog
    ensures catalog.drinkIds == old(catalog.drinkIds) && catalog.labels == old(catalog.labels)
    ensures catalog.ingredients == old(catalog.ingredients)
    ensures catalog.drinks == AccumulateAll(old(catalog.drinks), catalog.drinkIds, catalog.ingredients)
  {
    var ids := catalog.drinkIds;
    var j := 0;
    while j < |ids|
      invariant 0 <= j <= |ids|
      invariant catalog.drinkIds == ids && catalog.labels == old(catalog.labels)
      invariant catalog.ingredients == old(catalog.ingredients)
      invariant catalog.drinks == AccumulateAll(old(catalog.drinks), ids[..j], catalog.ingredients)
    {
      assert ids[..j + 1][..j] == ids[..j];
      catalog.AccumulateTotal(ids[j]);
      j := j + 1;
    }
    assert ids[..j] == ids;
  }

  /** The stages of `getDrinksAndIngredients` after the fetch, in their order. */
  method GetDrinksAndIngredients(rows: seq<Row>, lookup: string -> Result<real>)
    returns (r: Result<(seq<Drink>, seq<Ingredient>)>)
    ensures r == Pipeline(rows, lookup)
  {
    var t := ToDrinksAndIngredients(rows);
    BuildWellFormed(rows);
    var catalog := new Catalog(t);
    var enriched := EnrichEvery(catalog, lookup);
    if enriched.Err? {
      return Err(enriched.error);
    }
    forall id | id in catalog.drinks ensures ItemsKnown(catalog.drinks[id].ingredients, catalog.ingredients) {
      ItemsKnownGrow(t.drinks[id].ingredients, t.ingredients, catalog.ingredients);
    }
    AccumulateEvery(catalog);
    r := Ok((ValuesInOrder(t.drinkIds, catalog.drinks), ValuesInOrder(t.labels, catalog.ingredients)));
  }
}
