/**
 * backend/api/data.ts: the older catalog, `parseResult` and the module-level `cachedDrinks`.
 *
 * Rows are the decoded SPARQL bindings; only the cocktail id, its label and the ingredient label
 * take part. A drink here is a name with the list of ingredient names pushed onto it.
 */
module ApiData {
  import opened Wrappers
  import opened Seqs
  import DataUtil

  datatype ApiRow = ApiRow(cocktail: string, cocktailLabel: string, ingredientLabel: Option<string>)

  /** A drink of this catalog: `{ name, ingredients }`, each ingredient pushed as `{ name }`. */
  datatype ApiDrink = ApiDrink(name: string, ingredients: seq<string>)

  /** The `drinks` object being filled: its keys in insertion order and its entries. */
  datatype Aggregate = Aggregate(ids: seq<string>, drinks: map<string, ApiDrink>)

  /** One `forEach` step: create the drink on its first row, then push the ingredient if there is one. */
  function Step(a: Aggregate, row: ApiRow): Aggregate {
    var a1 := if row.cocktail !in a.drinks then Aggregate(a.ids + [row.cocktail], a.drinks[row.cocktail := ApiDrink(row.cocktailLabel, [])]) else a;
    if row.ingredientLabel.Some? then
      var d := a1.drinks[row.cocktail];
      a1.(drinks := a1.drinks[row.cocktail := d.(ingredients := d.ingredients + [row.ingredientLabel.value])])
    else a1
  }

  function AggregateRows(rows: seq<ApiRow>): (a: Aggregate)
    ensures forall id :: id in a.drinks <==> id in a.ids
    decreases |rows|
  {
    if rows == [] then Aggregate([], map[]) else Step(AggregateRows(rows[..|rows| - 1]), rows[|rows| - 1])
  }

  /** `Object.values(drinks)`: the entries in key insertion order. */
  function Values(a: Aggregate): (r: seq<ApiDrink>)
    requires forall id :: id in a.ids ==> id in a.drinks
    ensures |r| == |a.ids| && forall k :: 0 <= k < |r| ==> r[k] == a.drinks[a.ids[k]]
  {
    seq(|a.ids|, k requires 0 <= k < |a.ids| => a.drinks[a.ids[k]])
  }

  predicate HasIngredients(d: ApiDrink) {
    |d.ingredients| > 0
  }

  /** What `parseResult` returns for the decoded rows. */
  function ParsedDrinks(rows: seq<ApiRow>): seq<ApiDrink> {
    Filter(Values(AggregateRows(rows)), HasIngredients)
  }

  /** `parseResult` after decoding: the `forEach` loop, `Object.values` and the filter. */
  method ParseResult(cocktailTable: seq<ApiRow>) returns (result: seq<ApiDrink>)
    ensures result == ParsedDrinks(cocktailTable)
  {
    var ids: seq<string> := [];
    var drinks: map<string, ApiDrink> := map[];
    for i := 0 to |cocktailTable|
      invariant Aggregate(ids, drinks) == AggregateRows(cocktailTable[..i])
    {
      assert cocktailTable[..i + 1][..i] == cocktailTable[..i];
      var el := cocktailTable[i];
      if el.cocktail !in drinks {
        ids := ids + [el.cocktail];
        drinks := drinks[el.cocktail := ApiDrink(el.cocktailLabel, [])];
      }
      if el.ingredientLabel.Some? {
        var drink := drinks[el.cocktail];
        drinks := drinks[el.cocktail := drink.(ingredients := drink.ingredients + [el.ingredientLabel.value])];
      }
    }
    assert cocktailTable[..|cocktailTable|] == cocktailTable;
    result := Values(Aggregate(ids, drinks));
    result := Filter(result, HasIngredients);
  }

  /** The first row with the given cocktail id. */
  function FirstRowFor(rows: seq<ApiRow>, id: string): (r: Option<nat>)
    ensures r.Some? ==> r.value < |rows| && rows[r.value].cocktail == id && forall j :: 0 <= j < r.value ==> rows[j].cocktail != id
    ensures r.None? <==> forall j :: 0 <= j < |rows| ==> rows[j].cocktail != id
    decreases |rows|
  {
    if rows == [] then None
    else
      var prefix := rows[..|rows| - 1];
      var r := FirstRowFor(prefix, id);
      assert forall j :: 0 <= j < |prefix| ==> prefix[j] == rows[j];
      if r.Some? then r
      else if rows[|rows| - 1].cocktail == id then Some(|rows| - 1)
      else None
  }

  /** The ingredient labels of the rows with the given id, in row order. */
  function LabelsFor(rows: seq<ApiRow>, id: string): (r: seq<string>)
    decreases |rows|
  {
    if rows == [] then []
    else
      var last := rows[|rows| - 1];
      LabelsFor(rows[..|rows| - 1], id) + (if last.cocktail == id && last.ingredientLabel.Some? then [last.ingredientLabel.value] else [])
  }

  /** Each id has a row, and an earlier id in the list has an earlier first row. */
  ghost predicate InFirstRowOrder(rows: seq<ApiRow>, ids: seq<string>) {
    forall i, j :: 0 <= i < j < |ids| ==>
      FirstRowFor(rows, ids[i]).Some? && FirstRowFor(rows, ids[j]).Some? && FirstRowFor(rows, ids[i]).value < FirstRowFor(rows, ids[j]).value
  }

  /** The ids in the object are distinct, in first-row order. */
  ghost predicate WellFormed(rows: seq<ApiRow>, a: Aggregate) {
    && DataUtil.Distinct(a.ids)
    && InFirstRowOrder(rows, a.ids)
    && (forall id :: id in a.drinks <==> id in a.ids)
    && (forall id :: id in a.drinks <==> FirstRowFor(rows, id).Some?)
    && (forall id :: id in a.drinks ==> a.drinks[id] == ApiDrink(rows[FirstRowFor(rows, id).value].cocktailLabel, LabelsFor(rows, id)))
  }

  /**
   * One drink per distinct cocktail id, named after the first row with that id; its ingredients
   * are the labels of the rows with that id that carry one, duplicates kept, in row order.
   */
  lemma {:induction false} AggregateRowsWellFormed(rows: seq<ApiRow>)
    ensures WellFormed(rows, AggregateRows(rows))
    decreases |rows|
  {
    if rows != [] {
      var prefix := rows[..|rows| - 1];
      AggregateRowsWellFormed(prefix);
      StepWellFormed(prefix, rows[|rows| - 1], rows, AggregateRows(prefix), AggregateRows(rows));
    }
  }

  /** One more row keeps the aggregate well formed. */
  lemma StepWellFormed(prefix: seq<ApiRow>, row: ApiRow, rows: seq<ApiRow>, a: Aggregate, b: Aggregate)
    requires rows == prefix + [row] && WellFormed(prefix, a) && b == Step(a, row)
    ensures WellFormed(rows, b)
  {
    if row.cocktail !in a.drinks {
      DataUtil.DistinctAppend(a.ids, row.cocktail);
    }
    StepOrder(prefix, row, rows, a, b);
    StepDrinks(prefix, row, rows, a, b);
  }

  /** After one more row, each id's entry is still its drink as read off the rows. */
  lemma StepDrinks(prefix: seq<ApiRow>, row: ApiRow, rows: seq<ApiRow>, a: Aggregate, b: Aggregate)
    requires rows == prefix + [row] && WellFormed(prefix, a) && b == Step(a, row)
    ensures forall id :: id in b.drinks <==> FirstRowFor(rows, id).Some?
    ensures forall id :: id in b.drinks ==> b.drinks[id] == ApiDrink(rows[FirstRowFor(rows, id).value].cocktailLabel, LabelsFor(rows, id))
  {
    forall id
      ensures id in b.drinks <==> FirstRowFor(rows, id).Some?
      ensures id in b.drinks ==> b.drinks[id] == ApiDrink(rows[FirstRowFor(rows, id).value].cocktailLabel, LabelsFor(rows, id))
    {
      FirstRowForAppend(prefix, row, rows, id);
      LabelsForAppend(prefix, row, rows, id);
      if id in b.drinks && id !in a.drinks {
        LabelsForAbsent(prefix, id);
      }
    }
  }

  /** A new id is appended at the row that introduces it, after every earlier first row. */
  lemma StepOrder(prefix: seq<ApiRow>, row: ApiRow, rows: seq<ApiRow>, a: Aggregate, b: Aggregate)
    requires rows == prefix + [row] && WellFormed(prefix, a) && b == Step(a, row)
    ensures InFirstRowOrder(rows, b.ids)
  {
    forall k | 0 <= k < |a.ids|
      ensures FirstRowFor(rows, a.ids[k]) == FirstRowFor(prefix, a.ids[k])
      ensures FirstRowFor(prefix, a.ids[k]).Some? && FirstRowFor(prefix, a.ids[k]).value < |prefix|
    {
      assert a.ids[k] in a.drinks;
      FirstRowForAppend(prefix, row, rows, a.ids[k]);
    }
    if row.cocktail !in a.drinks {
      FirstRowForAppend(prefix, row, rows, row.cocktail);
      assert b.ids == a.ids + [row.cocktail];
      forall i, j | 0 <= i < j < |b.ids|
        ensures FirstRowFor(rows, b.ids[i]).Some? && FirstRowFor(rows, b.ids[j]).Some? && FirstRowFor(rows, b.ids[i]).value < FirstRowFor(rows, b.ids[j]).value
      {
        assert b.ids[i] == a.ids[i];
        if j < |a.ids| {
          assert b.ids[j] == a.ids[j];
        }
      }
    }
  }

  /** The first row for an id after one more row. */
  lemma FirstRowForAppend(prefix: seq<ApiRow>, row: ApiRow, rows: seq<ApiRow>, id: string)
    requires rows == prefix + [row]
    ensures FirstRowFor(rows, id) == if FirstRowFor(prefix, id).Some? then FirstRowFor(prefix, id) else if row.cocktail == id then Some(|prefix|) else None
    ensures FirstRowFor(prefix, id).Some? ==> rows[FirstRowFor(prefix, id).value] == prefix[FirstRowFor(prefix, id).value]
    ensures rows[|prefix|] == row
  {
    assert rows[..|rows| - 1] == prefix;
  }

  /** The labels for an id after one more row. */
  lemma LabelsForAppend(prefix: seq<ApiRow>, row: ApiRow, rows: seq<ApiRow>, id: string)
    requires rows == prefix + [row]
    ensures LabelsFor(rows, id) == LabelsFor(prefix, id) + (if row.cocktail == id && row.ingredientLabel.Some? then [row.ingredientLabel.value] else [])
  {
    assert rows[..|rows| - 1] == prefix;
  }

  /** No row with the id: no labels. */
  lemma {:induction false} LabelsForAbsent(rows: seq<ApiRow>, id: string)
    requires forall j :: 0 <= j < |rows| ==> rows[j].cocktail != id
    ensures LabelsFor(rows, id) == []
    decreases |rows|
  {
    if rows != [] {
      LabelsForAbsent(rows[..|rows| - 1], id);
    }
  }

  /**
   * Every drink `parseResult` returns has at least one ingredient, and is the drink of some id that
   * has a row: named after that id's first row, with the labels of that id's rows.
   */
  lemma ParsedDrinksHaveIngredients(rows: seq<ApiRow>)
    ensures forall d :: d in ParsedDrinks(rows) ==> |d.ingredients| > 0 && IsDrinkOfSomeId(rows, d)
  {
    var a := AggregateRows(rows);
    var vals := Values(a);
    var f := ParsedDrinks(rows);
    forall d | d in f
      ensures |d.ingredients| > 0 && IsDrinkOfSomeId(rows, d)
    {
      var m :| 0 <= m < |f| && f[m] == d;
      assert d in vals && HasIngredients(d);
      var k :| 0 <= k < |vals| && vals[k] == d;
      var id := a.ids[k];
      ValueFromRows(rows, id);
      assert FirstRowFor(rows, id).Some? && d == ApiDrink(rows[FirstRowFor(rows, id).value].cocktailLabel, LabelsFor(rows, id));
    }
  }

  /** `d` is the drink of some id that has a row. */
  ghost predicate IsDrinkOfSomeId(rows: seq<ApiRow>, d: ApiDrink) {
    exists id :: FirstRowFor(rows, id).Some? && d == ApiDrink(rows[FirstRowFor(rows, id).value].cocktailLabel, LabelsFor(rows, id))
  }

  /** The entry of an id in the aggregate is that id's drink as read off the rows. */
  lemma ValueFromRows(rows: seq<ApiRow>, id: string)
    requires id in AggregateRows(rows).ids
    ensures FirstRowFor(rows, id).Some?
    ensures AggregateRows(rows).drinks[id] == ApiDrink(rows[FirstRowFor(rows, id).value].cocktailLabel, LabelsFor(rows, id))
  {
    AggregateRowsWellFormed(rows);
  }

  /**
   * The drink of an id with a row is returned when some row with that id carries an ingredient
   * label; with ParsedDrinksHaveIngredients, these are exactly the drinks returned.
   */
  lemma ParsedDrinksFromRows(rows: seq<ApiRow>, id: string)
    requires FirstRowFor(rows, id).Some?
    ensures var d := ApiDrink(rows[FirstRowFor(rows, id).value].cocktailLabel, LabelsFor(rows, id));
      |d.ingredients| > 0 ==> d in ParsedDrinks(rows)
  {
    AggregateRowsWellFormed(rows);
    var a := AggregateRows(rows);
    var vals := Values(a);
    var i :| 0 <= i < |a.ids| && a.ids[i] == id;
    assert vals[i] == a.drinks[id];
  }

  /** Rows carrying an ingredient label. */
  function LabelledCount(rows: seq<ApiRow>): nat
    decreases |rows|
  {
    if rows == [] then 0 else LabelledCount(rows[..|rows| - 1]) + (if rows[|rows| - 1].ingredientLabel.Some? then 1 else 0)
  }

  /** The number of ingredient entries over the given ids. */
  function EntryCount(ids: seq<string>, drinks: map<string, ApiDrink>): nat
    requires forall id :: id in ids ==> id in drinks
    decreases |ids|
  {
    if ids == [] then 0 else EntryCount(ids[..|ids| - 1], drinks) + |drinks[ids[|ids| - 1]].ingredients|
  }

  lemma {:induction false} EntryCountBump(ids: seq<string>, drinks: map<string, ApiDrink>, id: string, x: string)
    requires forall i :: i in ids ==> i in drinks
    requires DataUtil.Distinct(ids) && id in drinks
    ensures var d := drinks[id];
      EntryCount(ids, drinks[id := d.(ingredients := d.ingredients + [x])]) == EntryCount(ids, drinks) + (if id in ids then 1 else 0)
    decreases |ids|
  {
    if ids != [] {
      var prefix := ids[..|ids| - 1];
      assert DataUtil.Distinct(prefix) by {
        forall a, b | 0 <= a < b < |prefix| ensures prefix[a] != prefix[b] {
          assert prefix[a] == ids[a] && prefix[b] == ids[b];
        }
      }
      assert forall i :: i in prefix ==> i in ids;
      if ids[|ids| - 1] == id {
        assert id !in prefix by {
          forall a | 0 <= a < |prefix| ensures prefix[a] != id {
            assert prefix[a] == ids[a];
          }
        }
      }
      EntryCountBump(prefix, drinks, id, x);
    }
  }

  lemma {:induction false} EntryCountFresh(ids: seq<string>, drinks: map<string, ApiDrink>, id: string, d: ApiDrink)
    requires forall i :: i in ids ==> i in drinks
    requires id !in ids
    ensures EntryCount(ids, drinks[id := d]) == EntryCount(ids, drinks)
    decreases |ids|
  {
    if ids != [] {
      EntryCountFresh(ids[..|ids| - 1], drinks, id, d);
    }
  }

  /** One step adds one entry for a labelled row and none otherwise. */
  lemma StepEntryCount(a: Aggregate, row: ApiRow)
    requires DataUtil.Distinct(a.ids) && forall id :: id in a.drinks <==> id in a.ids
    ensures var b := Step(a, row);
      (forall id :: id in b.ids ==> id in b.drinks) &&
      EntryCount(b.ids, b.drinks) == EntryCount(a.ids, a.drinks) + (if row.ingredientLabel.Some? then 1 else 0)
  {
    var a1 := if row.cocktail !in a.drinks then Aggregate(a.ids + [row.cocktail], a.drinks[row.cocktail := ApiDrink(row.cocktailLabel, [])]) else a;
    if row.cocktail !in a.drinks {
      EntryCountFresh(a.ids, a.drinks, row.cocktail, ApiDrink(row.cocktailLabel, []));
      assert (a.ids + [row.cocktail])[..|a.ids|] == a.ids;
      DataUtil.DistinctAppend(a.ids, row.cocktail);
    }
    assert EntryCount(a1.ids, a1.drinks) == EntryCount(a.ids, a.drinks);
    if row.ingredientLabel.Some? {
      EntryCountBump(a1.ids, a1.drinks, row.cocktail, row.ingredientLabel.value);
    }
  }

  /** Each row with an ingredient label adds exactly one ingredient entry. */
  lemma {:induction false} EntryCountIsLabelledCount(rows: seq<ApiRow>)
    ensures var a := AggregateRows(rows); EntryCount(a.ids, a.drinks) == LabelledCount(rows)
    decreases |rows|
  {
    if rows != [] {
      var prefix := rows[..|rows| - 1];
      EntryCountIsLabelledCount(prefix);
      AggregateRowsWellFormed(prefix);
      StepEntryCount(AggregateRows(prefix), rows[|rows| - 1]);
    }
  }

  /** The module-level cache of backend/api/data.ts. */
  class DrinkCache {
    var cachedDrinks: seq<ApiDrink>

    constructor ()
      ensures cachedDrinks == []
    {
      cachedDrinks := [];
    }

    /** `getDrinks()`: the last result stored, `[]` before the first fetch completes. */
    method GetDrinks() returns (r: seq<ApiDrink>)
      ensures r == cachedDrinks
    {
      r := cachedDrinks;
    }

    /**
     * `fetchDrinks()` given the outcome of the request: decoded rows or the request's error. A
     * completed request replaces the cache with the parsed drinks; a failed one leaves it alone.
     */
    method FetchDrinks(response: Result<seq<ApiRow>>) returns (r: Result<seq<ApiDrink>>)
      modifies this
      ensures cachedDrinks == CacheAfter(old(cachedDrinks), [response])
      ensures r == if response.Ok? then Ok(cachedDrinks) else Err(response.error)
    {
      if response.Ok? {
        var drinks := ParseResult(response.value);
        cachedDrinks := drinks;
        r := Ok(drinks);
      } else {
        r := Err(response.error);
      }
    }
  }

  /** The cache after a sequence of completed fetches. */
  function CacheAfter(cached: seq<ApiDrink>, responses: seq<Result<seq<ApiRow>>>): seq<ApiDrink>
    decreases |responses|
  {
    if responses == [] then cached
    else CacheAfter(if responses[0].Ok? then ParsedDrinks(responses[0].value) else cached, responses[1..])
  }

  /** Before any fetch succeeds, `getDrinks` returns what was cached. */
  lemma {:induction false} CacheAfterFailures(cached: seq<ApiDrink>, responses: seq<Result<seq<ApiRow>>>)
    requires forall k :: 0 <= k < |responses| ==> responses[k].Err?
    ensures CacheAfter(cached, responses) == cached
    decreases |responses|
  {
    if responses != [] {
      CacheAfterFailures(cached, responses[1..]);
    }
  }

  /** After fetches, the cache holds the parse of the last successful one. */
  lemma {:induction false} CacheAfterLastSuccess(cached: seq<ApiDrink>, responses: seq<Result<seq<ApiRow>>>, k: nat)
    requires k < |responses| && responses[k].Ok?
    requires forall j :: k < j < |responses| ==> responses[j].Err?
    ensures CacheAfter(cached, responses) == ParsedDrinks(responses[k].value)
    decreases |responses|
  {
    var next := if responses[0].Ok? then ParsedDrinks(responses[0].value) else cached;
    var rest := responses[1..];
    assert CacheAfter(cached, responses) == CacheAfter(next, rest);
    if k == 0 {
      CacheAfterFailures(next, rest);
    } else {
      assert rest[k - 1] == responses[k];
      assert forall j :: k - 1 < j < |rest| ==> rest[j] == responses[j + 1];
      CacheAfterLastSuccess(next, rest, k - 1);
    }
  }
}
