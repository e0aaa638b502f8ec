/** The record shapes of types.ts, which the older backend/api/ files use. */
module LegacyTypes {
  import opened Wrappers

  /** `IIngredient`. */
  datatype Ingredient = Ingredient(name: string, alcohol: real)

  /** `IIngredientAmount`. */
  datatype IngredientAmount = IngredientAmount(ingredient: Ingredient, amount: real)

  /** `IDrink`; there is no alcohol volume in this shape. */
  datatype Drink = Drink(name: string, description: Option<string>, instructions: Option<seq<string>>,
                         ingredients: seq<IngredientAmount>)

  /** The names of a list of ingredients, in order (`map(ingredient => ingredient.name)`). */
  function Names(ingredients: seq<Ingredient>): (r: seq<string>)
    ensures |r| == |ingredients| && forall k :: 0 <= k < |r| ==> r[k] == ingredients[k].name
  {
    seq(|ingredients|, k requires 0 <= k < |ingredients| => ingredients[k].name)
  }

  /** The ingredients of a drink's line items (`map(ingredientAmount => ingredientAmount.ingredient)`). */
  function IngredientsOf(d: Drink): (r: seq<Ingredient>)
    ensures |r| == |d.ingredients| && forall k :: 0 <= k < |r| ==> r[k] == d.ingredients[k].ingredient
  {
    seq(|d.ingredients|, k requires 0 <= k < |d.ingredients| => d.ingredients[k].ingredient)
  }
}
