/**
 * backend/data/util.ts: the unit table `normalize`, the keyed memo `cached` and the
 * single-value memo `once`.
 *
 * The functions `cached` and `once` wrap a `retrieve` callback. Its effect is injected: every
 * call receives `produced`, the value `retrieve` yields if it runs on that call.
 */
module DataUtil {
  import opened Wrappers

  /** An amount with its unit, the `{ val, unit }` record `normalize` returns. */
  datatype Amount = Amount(val: real, unit: string)

  const OunceMl: real := 29.5735

  /**
   * `normalize(ingredientAmount, unit)`: every listed unit label is converted to millilitres by a
   * fixed factor; any other label leaves amount and unit as they are. The label `'1'` is
   * converted with the ounce factor.
   */
  function Normalize(ingredientAmount: real, unit: string): (r: Amount)
    ensures r.unit == "ml" || r == Amount(ingredientAmount, unit)
    ensures r.val > 0.0 <==> ingredientAmount > 0.0
    ensures r.val == 0.0 <==> ingredientAmount == 0.0
  {
    match unit
    case "fluid ounce" => Amount(ingredientAmount * OunceMl, "ml")
    case "centilitre" => Amount(ingredientAmount * 10.0, "ml")
    case "splash" => Amount(ingredientAmount * 3.7, "ml")
    case "dash" => Amount(ingredientAmount * 0.9, "ml")
    case "millilitre" => Amount(ingredientAmount, "ml")
    case "teaspoon" => Amount(ingredientAmount * 3.7, "ml")
    case "bar spoon" => Amount(ingredientAmount * 2.5, "ml")
    case "ounce" => Amount(ingredientAmount * OunceMl, "ml")
    case "Stemware" => Amount(ingredientAmount * 150.0, "ml")
    case "tablespoon" => Amount(ingredientAmount * 11.1, "ml")
    case "drop" => Amount(ingredientAmount * 0.05, "ml")
    case "teaspoon (metric)" => Amount(ingredientAmount * 3.7, "ml")
    case "pinch" => Amount(ingredientAmount * 0.31, "ml")
    case "1" => Amount(ingredientAmount * OunceMl, "ml")
    case _ => Amount(ingredientAmount, unit)
  }

  /** The fourteen labels of the table. */
  const ListedUnits: set<string> := {
    "fluid ounce", "centilitre", "splash", "dash", "millilitre", "teaspoon", "bar spoon",
    "ounce", "Stemware", "tablespoon", "drop", "teaspoon (metric)", "pinch", "1"
  }

  /** The conversion factor of each listed label, as one millilitre-per-unit constant. */
  lemma NormalizeTable(a: real)
    ensures Normalize(a, "fluid ounce") == Amount(a * 29.5735, "ml")
    ensures Normalize(a, "ounce") == Amount(a * 29.5735, "ml")
    ensures Normalize(a, "centilitre") == Amount(a * 10.0, "ml")
    ensures Normalize(a, "millilitre") == Amount(a, "ml")
    ensures Normalize(a, "splash") == Amount(a * 3.7, "ml")
    ensures Normalize(a, "dash") == Amount(a * 0.9, "ml")
    ensures Normalize(a, "teaspoon") == Amount(a * 3.7, "ml")
    ensures Normalize(a, "teaspoon (metric)") == Amount(a * 3.7, "ml")
    ensures Normalize(a, "bar spoon") == Amount(a * 2.5, "ml")
    ensures Normalize(a, "tablespoon") == Amount(a * 11.1, "ml")
    ensures Normalize(a, "Stemware") == Amount(a * 150.0, "ml")
    ensures Normalize(a, "drop") == Amount(a * 0.05, "ml")
    ensures Normalize(a, "pinch") == Amount(a * 0.31, "ml")
    ensures Normalize(a, "1") == Amount(a * 29.5735, "ml")
  {
  }

  /** A label outside the table comes back as it went in; a listed one always becomes `'ml'`. */
  lemma NormalizeUnitIff(a: real, unit: string)
    ensures unit !in ListedUnits ==> Normalize(a, unit) == Amount(a, unit)
    ensures unit in ListedUnits ==> Normalize(a, unit).unit == "ml"
  {
  }

  /** The millilitres per unit of a label; 1 for a label outside the table, which is kept as it is. */
  function MlPerUnit(unit: string): (f: real)
    ensures f > 0.0
    ensures unit !in ListedUnits ==> f == 1.0
  {
    if unit in {"fluid ounce", "ounce", "1"} then OunceMl
    else if unit == "centilitre" then 10.0
    else if unit in {"splash", "teaspoon", "teaspoon (metric)"} then 3.7
    else if unit == "dash" then 0.9
    else if unit == "bar spoon" then 2.5
    else if unit == "Stemware" then 150.0
    else if unit == "tablespoon" then 11.1
    else if unit == "drop" then 0.05
    else if unit == "pinch" then 0.31
    else 1.0
  }

  /** `normalize` scales by the label's factor: the table, read as a function of the label. */
  lemma NormalizeScales(a: real, unit: string)
    ensures Normalize(a, unit).val == a * MlPerUnit(unit)
  {
  }

  /** For a fixed unit, the converted value is linear in the amount. */
  lemma NormalizeLinear(a: real, b: real, k: real, unit: string)
    ensures Normalize(a + b, unit).val == Normalize(a, unit).val + Normalize(b, unit).val
    ensures Normalize(k * a, unit).val == k * Normalize(a, unit).val
    ensures Normalize(a + b, unit).unit == Normalize(a, unit).unit
  {
    match unit
    case "fluid ounce" =>
    case "centilitre" =>
    case "splash" =>
    case "dash" =>
    case "millilitre" =>
    case "teaspoon" =>
    case "bar spoon" =>
    case "ounce" =>
    case "Stemware" =>
    case "tablespoon" =>
    case "drop" =>
    case "teaspoon (metric)" =>
    case "pinch" =>
    case "1" =>
    case _ =>
  }

  // ---------------------------------------------------------------------------------------
  // `cached(retrieve)`: a memo keyed by id. The promise `retrieve(id)` returns is stored on the
  // first call for that id, and returned for every later call with the same id.

  /** One call of the memo: the new cache, the returned result and whether `retrieve` ran. */
  datatype CallOutcome<T> = CallOutcome(cache: map<string, T>, result: T, ran: bool)

  function CachedCall<T>(cache: map<string, T>, id: string, produced: T): (o: CallOutcome<T>)
    ensures o.ran <==> id !in cache
    ensures o.ran ==> o.result == produced
    ensures !o.ran ==> o.result == cache[id] && o.cache == cache
    ensures o.cache.Keys == cache.Keys + {id} && o.cache[id] == o.result
    ensures forall other :: other in cache && other != id ==> other in o.cache && o.cache[other] == cache[other]
  {
    if id in cache then CallOutcome(cache, cache[id], false)
    else CallOutcome(cache[id := produced], produced, true)
  }

  class KeyedMemo<T> {
    var cache: map<string, T>

    constructor ()
      ensures cache == map[]
    {
      cache := map[];
    }

    /** The function `cached` returns, called with `id`. */
    method Call(id: string, produced: T) returns (result: T, ran: bool)
      modifies this
      ensures CachedCall(old(cache), id, produced) == CallOutcome(cache, result, ran)
    {
      if id in cache {
        return cache[id], false;
      }
      result := produced;
      cache := cache[id := result];
      ran := true;
    }
  }

  /** A run of calls `(id, produced)` from a given cache: the results and the ids `retrieve` ran for. */
  datatype Run<T> = Run(cache: map<string, T>, results: seq<T>, retrieved: seq<string>)

  function RunCalls<T>(cache: map<string, T>, calls: seq<(string, T)>): (r: Run<T>)
    ensures |r.results| == |calls|
    decreases |calls|
  {
    if calls == [] then Run(cache, [], [])
    else
      var o := CachedCall(cache, calls[0].0, calls[0].1);
      var rest := RunCalls(o.cache, calls[1..]);
      Run(rest.cache, [o.result] + rest.results, (if o.ran then [calls[0].0] else []) + rest.retrieved)
  }

  /** The position of the first call for `id`. */
  function FirstCall<T>(calls: seq<(string, T)>, id: string): (k: nat)
    requires exists i :: 0 <= i < |calls| && calls[i].0 == id
    ensures k < |calls| && calls[k].0 == id
    ensures forall j :: 0 <= j < k ==> calls[j].0 != id
  {
    if calls[0].0 == id then 0
    else
      assert exists i :: 0 <= i < |calls[1..]| && calls[1..][i].0 == id by {
        var i :| 0 <= i < |calls| && calls[i].0 == id;
        assert calls[1..][i - 1].0 == id;
      }
      1 + FirstCall(calls[1..], id)
  }

  /** The ids the calls are made with. */
  function CallIds<T>(calls: seq<(string, T)>): (ids: set<string>)
    ensures forall id :: id in ids <==> exists i :: 0 <= i < |calls| && calls[i].0 == id
    decreases |calls|
  {
    if calls == [] then {}
    else
      var rest := CallIds(calls[1..]);
      assert forall i :: 0 <= i < |calls[1..]| ==> calls[1..][i] == calls[i + 1];
      assert forall i :: 1 <= i < |calls| ==> calls[i] == calls[1..][i - 1];
      {calls[0].0} + rest
  }

  /** The run adds the called ids to the cache and keeps every entry it had. */
  lemma {:induction false} RunCallsCache<T>(cache: map<string, T>, calls: seq<(string, T)>)
    ensures RunCalls(cache, calls).cache.Keys == cache.Keys + CallIds(calls)
    ensures forall id :: id in cache ==> RunCalls(cache, calls).cache[id] == cache[id]
    decreases |calls|
  {
    if calls != [] {
      var o := CachedCall(cache, calls[0].0, calls[0].1);
      RunCallsCache(o.cache, calls[1..]);
    }
  }

  /** `retrieve` runs for exactly the called ids that were not cached when the run began. */
  lemma {:induction false} RunCallsRetrievedIff<T>(cache: map<string, T>, calls: seq<(string, T)>)
    ensures forall id :: id in RunCalls(cache, calls).retrieved <==> id !in cache && id in CallIds(calls)
    decreases |calls|
  {
    if calls != [] {
      var o := CachedCall(cache, calls[0].0, calls[0].1);
      RunCallsRetrievedIff(o.cache, calls[1..]);
    }
  }

  /** No element occurs twice. */
  predicate Distinct<X(==)>(s: seq<X>) {
    forall i, j :: 0 <= i < j < |s| ==> s[i] != s[j]
  }

  lemma DistinctAppend<X>(s: seq<X>, x: X)
    requires Distinct(s) && x !in s
    ensures Distinct(s + [x])
  {
    forall i, j | 0 <= i < j < |s + [x]| ensures (s + [x])[i] != (s + [x])[j] {
      assert (s + [x])[i] == s[i];
      if j == |s| {
        assert s[i] in s;
      } else {
        assert (s + [x])[j] == s[j];
      }
    }
  }

  /** `retrieve` never runs twice for the same id. */
  lemma {:induction false} RunCallsRetrievesOnce<T>(cache: map<string, T>, calls: seq<(string, T)>)
    ensures Distinct(RunCalls(cache, calls).retrieved)
    decreases |calls|
  {
    if calls != [] {
      var o := CachedCall(cache, calls[0].0, calls[0].1);
      RunCallsRetrievesOnce(o.cache, calls[1..]);
      RunCallsRetrievedIff(o.cache, calls[1..]);
      var rest := RunCalls(o.cache, calls[1..]).retrieved;
      assert calls[0].0 in o.cache;
      assert forall j :: 0 <= j < |rest| ==> rest[j] != calls[0].0 by {
        forall j | 0 <= j < |rest| ensures rest[j] != calls[0].0 {
          assert rest[j] in rest;
        }
      }
      var r := RunCalls(cache, calls).retrieved;
      if o.ran {
        assert r == [calls[0].0] + rest;
        forall i, j | 0 <= i < j < |r| ensures r[i] != r[j] {
          assert r[j] == rest[j - 1];
          if i > 0 {
            assert r[i] == rest[i - 1];
            assert rest[i - 1] != rest[j - 1];
          } else {
            assert r[i] == calls[0].0;
            assert rest[j - 1] != calls[0].0;
          }
        }
      } else {
        assert r == rest;
      }
    }
  }

  /** Every later call for an id returns what its first call produced (when it was not cached). */
  lemma {:induction false} RunCallsResult<T>(cache: map<string, T>, calls: seq<(string, T)>, k: nat)
    requires k < |calls| && calls[k].0 !in cache
    ensures RunCalls(cache, calls).results[k] == calls[FirstCall(calls, calls[k].0)].1
    decreases |calls|
  {
    var o := CachedCall(cache, calls[0].0, calls[0].1);
    if k == 0 {
    } else if calls[0].0 == calls[k].0 {
      RunCachedResult(o.cache, calls[1..], k - 1);
    } else {
      assert calls[1..][k - 1] == calls[k];
      RunCallsResult(o.cache, calls[1..], k - 1);
      assert FirstCall(calls, calls[k].0) == 1 + FirstCall(calls[1..], calls[k].0);
    }
  }

  /** A call for an id that is already cached returns the cached value. */
  lemma {:induction false} RunCachedResult<T>(cache: map<string, T>, calls: seq<(string, T)>, k: nat)
    requires k < |calls| && calls[k].0 in cache
    ensures RunCalls(cache, calls).results[k] == cache[calls[k].0]
    decreases |calls|
  {
    var o := CachedCall(cache, calls[0].0, calls[0].1);
    if k > 0 {
      assert calls[1..][k - 1] == calls[k];
      RunCachedResult(o.cache, calls[1..], k - 1);
    }
  }

  // ---------------------------------------------------------------------------------------
  // `once(retrieve)`: the first non-null value `retrieve` yields is kept; `null` (modelled as
  // `None`) is not a value, so `retrieve` runs again on the next call.

  class Once<T> {
    var cached: Option<T>

    constructor ()
      ensures cached == None
    {
      cached := None;
    }

    /** The function `once` returns (`get`). */
    method Get(produced: Option<T>) returns (result: Option<T>, ran: bool)
      modifies this
      ensures ran <==> old(cached).None?
      ensures ran ==> cached == produced
      ensures !ran ==> cached == old(cached)
      ensures result == cached
    {
      ran := cached.None?;
      if ran {
        cached := produced;
      }
      result := cached;
    }
  }

  /** The state after each call of a run of `get` calls, given what `retrieve` would yield each time. */
  function OnceRun<T>(cached: Option<T>, produced: seq<Option<T>>): (r: seq<bool>)
    ensures |r| == |produced|
    decreases |produced|
  {
    if produced == [] then []
    else
      var ran := cached.None?;
      var next := if ran then produced[0] else cached;
      [ran] + OnceRun(next, produced[1..])
  }

  /**
   * From an empty memo, `retrieve` runs on exactly the calls up to and including the first one
   * that yields a non-null value.
   */
  lemma {:induction false} OnceRunsUntilValue<T>(produced: seq<Option<T>>, k: nat)
    requires k < |produced|
    ensures OnceRun(None, produced)[k] <==> forall j :: 0 <= j < k ==> produced[j].None?
    decreases |produced|
  {
    if k > 0 {
      if produced[0].None? {
        OnceRunsUntilValue(produced[1..], k - 1);
        assert forall j :: 0 <= j < k - 1 ==> produced[1..][j] == produced[j + 1];
      } else {
        OnceKeepsValue(produced[0].value, produced[1..], k - 1);
      }
    }
  }

  lemma {:induction false} OnceKeepsValue<T>(v: T, produced: seq<Option<T>>, k: nat)
    requires k < |produced|
    ensures !OnceRun(Some(v), produced)[k]
    decreases |produced|
  {
    if k > 0 {
      OnceKeepsValue(v, produced[1..], k - 1);
    }
  }
}
