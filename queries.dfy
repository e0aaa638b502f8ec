/**
 * The request validators: `isTipsinessQuery`, `isAllIngredientsQuery` and `isDrinkQuery` of
 * common/src/queries.ts and of the older queries.ts, and `objIsRequest` of types.ts.
 *
 * Each is a chain of `&&`, which in JavaScript yields an operand rather than a boolean; a caller
 * uses the result as a condition, so what matters is whether it is truthy. `isTipsinessQuery`
 * has the same text in both query files and in `objIsRequest`, so it is stated once.
 */
module Queries {
  import opened Wrappers
  import opened JsValues

  /** `a && b`: the first operand when it is falsy, the second otherwise. */
  function And(a: JsValue, b: JsValue): (r: JsValue)
    ensures Truthy(r) <==> Truthy(a) && Truthy(b)
    ensures Truthy(r) ==> r == b
  {
    if Truthy(a) then b else a
  }

  /** `typeof v === tag`, a boolean. */
  function TypeIs(v: JsValue, tag: TypeOfTag): JsValue {
    Bool(TypeOf(v) == tag)
  }

  /**
   * `obj && obj.ingredients && typeof obj.ingredients === 'object' && obj.promille &&
   * typeof obj.promille === 'number' && obj.weight && typeof obj.weight === 'number'`.
   */
  function IsTipsinessQuery(obj: JsValue): (r: JsValue)
    ensures Truthy(r) <==>
      && Truthy(obj)
      && Truthy(GetProp(obj, "ingredients")) && TypeOf(GetProp(obj, "ingredients")) == TObject
      && Truthy(GetProp(obj, "promille")) && GetProp(obj, "promille").Number?
      && Truthy(GetProp(obj, "weight")) && GetProp(obj, "weight").Number?
    ensures Truthy(r) ==> r == Bool(true)
  {
    var ingredients := GetProp(obj, "ingredients");
    var promille := GetProp(obj, "promille");
    var weight := GetProp(obj, "weight");
    And(And(And(And(And(And(obj, ingredients), TypeIs(ingredients, TObject)), promille), TypeIs(promille, TNumber)), weight),
        TypeIs(weight, TNumber))
  }

  /** The value of a truthy numeric property: a number other than NaN and the two zeros. */
  predicate TruthyNumber(v: JsValue) {
    v.Number? && !(v.n.NaN? || v.n.PosZero? || v.n.NegZero?)
  }

  /**
   * Accepted exactly when `obj` is an object whose `ingredients` is an array or a non-null
   * object, and whose `promille` and `weight` are truthy numbers.
   */
  lemma TipsinessQueryShape(obj: JsValue)
    ensures Truthy(IsTipsinessQuery(obj)) <==>
      && obj.Object?
      && (GetProp(obj, "ingredients").Array? || GetProp(obj, "ingredients").Object?)
      && TruthyNumber(GetProp(obj, "promille"))
      && TruthyNumber(GetProp(obj, "weight"))
  {
  }

  /** A query object of three properties, in this order. */
  function TipsinessObject(ingredients: JsValue, promille: JsValue, weight: JsValue): (r: JsValue)
    ensures GetProp(r, "ingredients") == ingredients && GetProp(r, "promille") == promille && GetProp(r, "weight") == weight
  {
    var props := [Property("ingredients", ingredients, true), Property("promille", promille, true), Property("weight", weight, true)];
    assert props[1..] == [props[1], props[2]] && props[1..][1..] == [props[2]];
    Object(None, props)
  }

  /** `null` is rejected as a query and as its `ingredients`; an array of ingredients is accepted. */
  lemma TipsinessNullAndArrays(r: Option<nat>, elements: seq<JsValue>, promille: Number, weight: Number)
    requires !(promille.NaN? || promille.PosZero? || promille.NegZero?)
    requires !(weight.NaN? || weight.PosZero? || weight.NegZero?)
    ensures !Truthy(IsTipsinessQuery(Null))
    ensures Truthy(IsTipsinessQuery(TipsinessObject(Array(r, elements), Number(promille), Number(weight))))
    ensures !Truthy(IsTipsinessQuery(TipsinessObject(Null, Number(promille), Number(weight))))
  {
  }

  /** A zero or NaN `promille` or `weight` is rejected, whatever else the object holds. */
  lemma TipsinessRejectsZeroAndNaN(obj: JsValue, name: string, n: Number)
    requires name == "promille" || name == "weight"
    requires n.NaN? || n.PosZero? || n.NegZero?
    requires GetProp(obj, name) == Number(n)
    ensures !Truthy(IsTipsinessQuery(obj))
  {
  }

  /** A string, a boolean or any other non-number `promille` or `weight` is rejected. */
  lemma TipsinessRejectsNonNumbers(obj: JsValue, name: string)
    requires name == "promille" || name == "weight"
    requires !GetProp(obj, name).Number?
    ensures !Truthy(IsTipsinessQuery(obj))
  {
  }

  /** The object with its `ingredients` property, when that is the first property of the name, replaced. */
  function WithIngredients(props: seq<Property>, v: JsValue): (r: seq<Property>)
    ensures |r| == |props|
    ensures forall k :: 0 <= k < |props| ==> r[k].name == props[k].name
    ensures forall k :: 0 <= k < |props| && props[k].name != "ingredients" ==> r[k] == props[k]
  {
    seq(|props|, k requires 0 <= k < |props| => if props[k].name == "ingredients" then props[k].(value := v) else props[k])
  }

  predicate HasProperty(props: seq<Property>, name: string) {
    exists k :: 0 <= k < |props| && props[k].name == name
  }

  lemma {:induction false} LookupWithIngredients(props: seq<Property>, v: JsValue, name: string)
    ensures LookupProperty(WithIngredients(props, v), name) ==
      if name == "ingredients" && HasProperty(props, name) then v else LookupProperty(props, name)
    decreases |props|
  {
    if props != [] {
      var w := WithIngredients(props, v);
      WithIngredientsTail(props, v);
      if props[0].name != name {
        LookupWithIngredients(props[1..], v, name);
        HasPropertyTail(props, name);
        assert LookupProperty(w, name) == LookupProperty(w[1..], name);
      } else {
        assert HasProperty(props, name);
        assert LookupProperty(w, name) == w[0].value;
      }
    }
  }

  lemma WithIngredientsTail(props: seq<Property>, v: JsValue)
    requires props != []
    ensures WithIngredients(props, v)[1..] == WithIngredients(props[1..], v)
    ensures WithIngredients(props, v)[0] == if props[0].name == "ingredients" then props[0].(value := v) else props[0]
  {
  }

  lemma HasPropertyTail(props: seq<Property>, name: string)
    requires props != [] && props[0].name != name
    ensures HasProperty(props, name) <==> HasProperty(props[1..], name)
  {
    if HasProperty(props, name) {
      var k :| 0 <= k < |props| && props[k].name == name;
      assert props[1..][k - 1].name == name;
    }
    if HasProperty(props[1..], name) {
      var k :| 0 <= k < |props[1..]| && props[1..][k].name == name;
      assert props[k + 1].name == name;
    }
  }

  /**
   * The elements of `ingredients` are never inspected: replacing an array of ingredients by any
   * other array (of any length, with any identity) does not change the verdict.
   */
  lemma TipsinessIgnoresElements(ref: Option<nat>, props: seq<Property>, r: Option<nat>, elements: seq<JsValue>)
    requires GetProp(Object(ref, props), "ingredients").Array?
    ensures Truthy(IsTipsinessQuery(Object(ref, WithIngredients(props, Array(r, elements))))) ==
      Truthy(IsTipsinessQuery(Object(ref, props)))
  {
    LookupWithIngredients(props, Array(r, elements), "ingredients");
    LookupWithIngredients(props, Array(r, elements), "promille");
    LookupWithIngredients(props, Array(r, elements), "weight");
  }

  /**
   * `objIsRequest` of types.ts has the text of `isTipsinessQuery`: each conjunct is needed, so a
   * falsy `obj`, a falsy or non-object `ingredients`, or a falsy or non-number `promille` or
   * `weight` rejects.
   */
  lemma RequestNeedsEveryConjunct(obj: JsValue)
    ensures !Truthy(obj) ==> !Truthy(IsTipsinessQuery(obj))
    ensures !Truthy(GetProp(obj, "ingredients")) || TypeOf(GetProp(obj, "ingredients")) != TObject ==> !Truthy(IsTipsinessQuery(obj))
    ensures !TruthyNumber(GetProp(obj, "promille")) ==> !Truthy(IsTipsinessQuery(obj))
    ensures !TruthyNumber(GetProp(obj, "weight")) ==> !Truthy(IsTipsinessQuery(obj))
  {
  }

  /**
   * `!!obj`: `isAllIngredientsQuery` in both query files, and `isDrinkQuery` of
   * common/src/queries.ts.
   */
  function IsTruthyQuery(obj: JsValue): (r: bool)
    ensures r <==> !(obj.Undefined? || obj.Null? || obj == Bool(false) || obj == Str("") || obj == BigInt(0) ||
                     obj == Number(NaN) || obj == Number(PosZero) || obj == Number(NegZero))
  {
    Truthy(obj)
  }

  /** Any object or array is accepted, whatever properties it has (the filters are all optional). */
  lemma TruthyQueryAcceptsObjects(ref: Option<nat>, props: seq<Property>, elements: seq<JsValue>)
    ensures IsTruthyQuery(Object(ref, props))
    ensures IsTruthyQuery(Array(ref, elements))
  {
  }

  /** An empty string, zero or `false` sent as a query is rejected; a number or non-empty string is not. */
  lemma TruthyQueryOnPrimitives(s: string, n: Number)
    ensures IsTruthyQuery(Str(s)) <==> s != ""
    ensures IsTruthyQuery(Number(n)) <==> TruthyNumber(Number(n))
    ensures !IsTruthyQuery(Bool(false)) && IsTruthyQuery(Bool(true))
  {
  }

  /**
   * `isDrinkQuery` of queries.ts: `obj && obj.searchValue && typeof obj.searchValue === 'string'
   * && obj.maxAlcoholConcentration && typeof obj.maxAlcoholConcentration === 'number'`.
   */
  function IsLegacyDrinkQuery(obj: JsValue): (r: JsValue)
    ensures Truthy(r) <==>
      && Truthy(obj)
      && Truthy(GetProp(obj, "searchValue")) && GetProp(obj, "searchValue").Str?
      && Truthy(GetProp(obj, "maxAlcoholConcentration")) && GetProp(obj, "maxAlcoholConcentration").Number?
    ensures Truthy(r) ==> r == Bool(true)
  {
    var searchValue := GetProp(obj, "searchValue");
    var maxAlc := GetProp(obj, "maxAlcoholConcentration");
    And(And(And(And(obj, searchValue), TypeIs(searchValue, TString)), maxAlc), TypeIs(maxAlc, TNumber))
  }

  /** Accepted exactly for an object with a non-empty `searchValue` and a truthy numeric concentration. */
  lemma LegacyDrinkQueryShape(obj: JsValue)
    ensures Truthy(IsLegacyDrinkQuery(obj)) <==>
      && obj.Object?
      && GetProp(obj, "searchValue").Str? && GetProp(obj, "searchValue").s != ""
      && TruthyNumber(GetProp(obj, "maxAlcoholConcentration"))
  {
  }

  /** A legacy drink query of two properties. */
  function DrinkQueryObject(searchValue: JsValue, maxAlcoholConcentration: JsValue): (r: JsValue)
    ensures GetProp(r, "searchValue") == searchValue && GetProp(r, "maxAlcoholConcentration") == maxAlcoholConcentration
  {
    var props := [Property("searchValue", searchValue, true), Property("maxAlcoholConcentration", maxAlcoholConcentration, true)];
    assert props[1..] == [props[1]];
    Object(None, props)
  }

  /**
   * The declared `null` concentration is rejected, and so are 0 and NaN; an empty search value is
   * rejected whatever the concentration. Infinity passes.
   */
  lemma LegacyDrinkQueryRejections(searchValue: string, concentration: JsValue)
    ensures !Truthy(IsLegacyDrinkQuery(DrinkQueryObject(Str(searchValue), Null)))
    ensures !Truthy(IsLegacyDrinkQuery(DrinkQueryObject(Str(searchValue), Number(PosZero))))
    ensures !Truthy(IsLegacyDrinkQuery(DrinkQueryObject(Str(searchValue), Number(NaN))))
    ensures !Truthy(IsLegacyDrinkQuery(DrinkQueryObject(Str(""), concentration)))
    ensures searchValue != "" ==> Truthy(IsLegacyDrinkQuery(DrinkQueryObject(Str(searchValue), Number(PosInf))))
  {
  }
}
