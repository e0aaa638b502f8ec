/**
 * backend/data/openfoodfacts.ts: the alcohol value of an ingredient category, from the products
 * OpenFoodFacts lists under it.
 *
 * The HTTP request is not modelled: `respond` gives, for each category, the decoded response the
 * request for it yields.
 */
module OpenFoodFacts {
  import opened Wrappers
  import opened Strings

  /** A product record: `no_nutrition_data` is `''` or `'on'`; `nutriments.alcohol` is optional. */
  datatype Product = Product(noNutritionData: string, alcohol: Option<real>)

  /** The decoded category listing. */
  datatype FoodFactsResult = FoodFactsResult(count: int, products: seq<Product>)

  /** A product contributes when it has nutrition data and a truthy (present, non-zero) alcohol value. */
  predicate Contributes(p: Product) {
    p.noNutritionData == "" && p.alcohol.Some? && p.alcohol.value != 0.0
  }

  /** The alcohol values of the contributing products, in product order. */
  function ContributingValues(products: seq<Product>): (r: seq<real>)
    ensures |r| <= |products|
    ensures forall k :: 0 <= k < |r| ==> r[k] != 0.0
    ensures forall k :: 0 <= k < |products| && Contributes(products[k]) ==> products[k].alcohol.value in r
    ensures forall v :: v in r ==> exists k :: 0 <= k < |products| && Contributes(products[k]) && products[k].alcohol.value == v
    decreases |products|
  {
    if products == [] then []
    else
      var rest := ContributingValues(products[1..]);
      assert forall k :: 1 <= k < |products| ==> products[k] == products[1..][k - 1];
      if Contributes(products[0]) then [products[0].alcohol.value] + rest else rest
  }

  function Sum(vals: seq<real>): real
    decreases |vals|
  {
    if vals == [] then 0.0 else Sum(vals[..|vals| - 1]) + vals[|vals| - 1]
  }

  /** `parseOffResult`: 0 for listings over 1000 products or without contributing products, else the mean. */
  function ParseOffResult(result: FoodFactsResult): real {
    if result.count > 1000 then 0.0
    else
      var vals := ContributingValues(result.products);
      if |vals| == 0 then 0.0
      else Sum(vals) / (|vals| as real)
  }

  lemma ParseOffResultCutOffs(result: FoodFactsResult)
    ensures result.count > 1000 ==> ParseOffResult(result) == 0.0
    ensures (forall k :: 0 <= k < |result.products| ==> !Contributes(result.products[k])) ==> ParseOffResult(result) == 0.0
  {
    var vals := ContributingValues(result.products);
    if |vals| > 0 {
      assert vals[0] in vals;
    }
  }

  lemma {:induction false} SumBounds(vals: seq<real>, lo: real, hi: real)
    requires forall k :: 0 <= k < |vals| ==> lo <= vals[k] <= hi
    ensures (|vals| as real) * lo <= Sum(vals) <= (|vals| as real) * hi
    decreases |vals|
  {
    if vals != [] {
      var prefix := vals[..|vals| - 1];
      assert forall k :: 0 <= k < |prefix| ==> prefix[k] == vals[k];
      SumBounds(prefix, lo, hi);
      var m := |prefix| as real;
      assert (|vals| as real) * lo == m * lo + lo;
      assert (|vals| as real) * hi == m * hi + hi;
    }
  }

  /** The mean lies between the smallest and the largest contributing value. */
  lemma ParseOffResultBetween(result: FoodFactsResult, lo: real, hi: real)
    requires result.count <= 1000
    requires |ContributingValues(result.products)| > 0
    requires forall k :: 0 <= k < |result.products| && Contributes(result.products[k]) ==>
      lo <= result.products[k].alcohol.value <= hi
    ensures lo <= ParseOffResult(result) <= hi
  {
    var vals := ContributingValues(result.products);
    ContributingValuesBounds(result.products, lo, hi);
    SumBounds(vals, lo, hi);
    MeanBounds(result, vals, lo, hi);
  }

  lemma MeanBounds(result: FoodFactsResult, vals: seq<real>, lo: real, hi: real)
    requires result.count <= 1000
    requires vals == ContributingValues(result.products) && |vals| > 0
    requires (|vals| as real) * lo <= Sum(vals) <= (|vals| as real) * hi
    ensures lo <= ParseOffResult(result) <= hi
  {
    QuotientBounds(Sum(vals), |vals| as real, lo, hi);
    assert ParseOffResult(result) == Sum(vals) / (|vals| as real);
  }

  lemma {:induction false} ContributingValuesBounds(products: seq<Product>, lo: real, hi: real)
    requires forall k :: 0 <= k < |products| && Contributes(products[k]) ==> lo <= products[k].alcohol.value <= hi
    ensures forall k :: 0 <= k < |ContributingValues(products)| ==> lo <= ContributingValues(products)[k] <= hi
    decreases |products|
  {
    if products != [] {
      assert forall k :: 1 <= k < |products| ==> products[k] == products[1..][k - 1];
      ContributingValuesBounds(products[1..], lo, hi);
    }
  }

  lemma QuotientBounds(s: real, n: real, lo: real, hi: real)
    requires n > 0.0 && n * lo <= s <= n * hi
    ensures lo <= s / n <= hi
  {
    var q := s / n;
    assert q * n == s;
  }

  /** `Math.round(x)`: the nearest integer, halves rounded up. */
  function Round(x: real): (r: int)
    ensures x - 0.5 < r as real <= x + 0.5
  {
    (x + 0.5).Floor
  }

  /** `Math.round(x * 10) / 10`: the nearest multiple of a tenth, halves rounded up. */
  function RoundToTenth(x: real): (r: real)
    ensures x - 0.05 < r <= x + 0.05
    ensures (r * 10.0).Floor as real == r * 10.0
  {
    Round(x * 10.0) as real / 10.0
  }

  /** Rounding an already rounded value changes nothing. */
  lemma RoundToTenthIdempotent(x: real)
    ensures RoundToTenth(RoundToTenth(x)) == RoundToTenth(x)
  {
    var n := Round(x * 10.0);
    assert RoundToTenth(x) * 10.0 == n as real;
    assert Round(n as real) == n;
  }

  /** `location.replace('/category/', '').replace('.json', '')`: the category a redirect names. */
  function RedirectCategory(location: string): string {
    RemoveFirst(RemoveFirst(location, "/category/"), ".json")
  }

  /** The first occurrence of a prefix is at 0. */
  lemma IndexOfPrefix(s: string, p: string)
    requires StartsWith(s, p)
    ensures IndexOf(s, p) == Some(0)
  {
    assert s[0..|p|] == s[..|p|];
    assert OccursAt(s, p, 0);
  }

  /** Removing the leading `/category/` of such a location leaves `<c>.json`. */
  lemma StripCategory(c: string)
    ensures RemoveFirst("/category/" + c + ".json", "/category/") == c + ".json"
  {
    var location := "/category/" + c + ".json";
    IndexOfPrefix(location, "/category/");
    assert location[10..] == c + ".json";
  }

  /** The first `.json` of `<c>.json`, for a slug without a dot, is its suffix. */
  lemma StripJson(c: string)
    requires '.' !in c
    ensures RemoveFirst(c + ".json", ".json") == c
  {
    var s := c + ".json";
    assert OccursAt(s, ".json", |c|) by {
      assert s[|c|..|c| + 5] == ".json";
    }
    assert IndexOf(s, ".json") == Some(|c|) by {
      forall j | 0 <= j < |c| ensures !OccursAt(s, ".json", j) {
        assert s[j] == c[j];
        assert s[j..j + 5][0] == s[j];
      }
    }
    assert s[..|c|] == c;
    assert s[|c| + 5..] == [];
  }

  /** A relative location `/category/<c>.json` whose slug has no dot names the category `c`. */
  lemma RedirectCategoryOfPath(c: string)
    requires '.' !in c
    ensures RedirectCategory("/category/" + c + ".json") == c
  {
    StripCategory(c);
    StripJson(c);
  }

  /** The replacements only remove text: a location without either pattern is its own category. */
  lemma RedirectCategoryUnchanged(location: string)
    requires !Includes(location, "/category/") && !Includes(location, ".json")
    ensures RedirectCategory(location) == location
  {
  }

  /** The decoded outcome of the request for a category. */
  datatype Response =
    | Failure(error: string)
    | Redirect(location: Option<string>)
    | Success(content: FoodFactsResult)

  /**
   * How the lookup ends. `Unresolved` is a chain of redirects longer than the steps allowed: the
   * source follows redirects without a limit, so such a chain never produces a value there.
   */
  datatype Lookup = Value(alcohol: real) | Failed(error: string) | Unresolved

  /**
   * `fetchAlcohol(category)`, following at most `fuel` redirects. Each redirect retries with the
   * rewritten category directly, without going through the persisted memo. A redirect without a
   * location fails, as `location!.replace` throws there.
   */
  function FetchAlcohol(category: string, respond: string -> Response, fuel: nat): (r: Lookup)
    decreases fuel
  {
    match respond(category)
    case Failure(e) => Failed(e)
    case Redirect(None) => Failed("TypeError: location is undefined")
    case Redirect(Some(location)) =>
      if fuel == 0 then Unresolved
      else FetchAlcohol(RedirectCategory(location), respond, fuel - 1)
    case Success(content) => Value(RoundToTenth(ParseOffResult(content)))
  }

  /** More steps never change a lookup that already ended. */
  lemma {:induction false} FetchAlcoholFuelMonotone(category: string, respond: string -> Response, fuel: nat, more: nat)
    requires fuel <= more
    requires !FetchAlcohol(category, respond, fuel).Unresolved?
    ensures FetchAlcohol(category, respond, more) == FetchAlcohol(category, respond, fuel)
    decreases fuel
  {
    match respond(category)
    case Redirect(Some(location)) =>
      FetchAlcoholFuelMonotone(RedirectCategory(location), respond, fuel - 1, more - 1);
    case _ =>
  }

  /** A successful response yields the rounded mean of its listing. */
  lemma FetchAlcoholSuccess(category: string, respond: string -> Response, fuel: nat)
    requires respond(category).Success?
    ensures FetchAlcohol(category, respond, fuel) == Value(RoundToTenth(ParseOffResult(respond(category).content)))
  {
  }

  /** Two categories that redirect to each other never produce a value, however many steps are allowed. */
  lemma {:induction false} RedirectCycleUnresolved(a: string, b: string, la: string, lb: string, respond: string -> Response, fuel: nat)
    requires respond(a) == Redirect(Some(la)) && RedirectCategory(la) == b
    requires respond(b) == Redirect(Some(lb)) && RedirectCategory(lb) == a
    ensures FetchAlcohol(a, respond, fuel) == Unresolved
    ensures FetchAlcohol(b, respond, fuel) == Unresolved
    decreases fuel
  {
    if fuel > 0 {
      RedirectCycleUnresolved(a, b, la, lb, respond, fuel - 1);
    }
  }

  /** The persistence domain of a category's value. */
  function DomainName(category: string): (r: string)
    ensures |r| == |category| + 15 && r[..15] == "off-ingredient-" && r[15..] == category
  {
    "off-ingredient-" + category
  }

  /** Distinct categories are persisted under distinct domains. */
  lemma DomainNameInjective(a: string, b: string)
    requires DomainName(a) == DomainName(b)
    ensures a == b
  {
    assert DomainName(a)[15..] == a;
  }
}
