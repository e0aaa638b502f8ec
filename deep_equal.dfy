/**
 * `deepEquals` of common/src/util/equal.ts, with its inner `deepEquals0` and the map
 * `memoizedComparisons` it fills.
 *
 * `Compare` states what `deepEquals0` computes: the outcome (a boolean, or the `TypeError` that
 * `Object.getOwnPropertyNames(null)` throws) and the map afterwards. The map pairs the identity of
 * a first operand with the second operand it was last compared with; an array or object without
 * identity is never found in it again. The key and value arrays built for the object branch are
 * fresh arrays, so they carry no identity.
 *
 * As written, the object branch answers `!keysEqual || !valuesEqual`. `Compare` also takes the
 * variant `Intended`, which answers `keysEqual && valuesEqual`; everything else is shared.
 */
module DeepEqual {
  import opened Wrappers
  import opened JsValues
  import Strings
  import Seqs

  datatype KeysMode = AllKeys | EnumerableKeys

  /**
   * The options after `??`: `strictNumberEquality ?? false`, `maximumDepth ?? -1` and
   * `consideredKeys ?? 'all'`. A maximum depth that is not a whole number never matches the
   * depth, like -1.
   */
  datatype Options = Options(strictNumberEquality: bool, maximumDepth: int, consideredKeys: KeysMode)

  const Defaults: Options := Options(false, -1, AllKeys)

  datatype Outcome = Returns(b: bool) | Throws

  type Memo = map<nat, JsValue>

  datatype Variant = AsWritten | Intended

  /** The nesting height of a value: 0 for a primitive. */
  function Height(v: JsValue): nat
    decreases v, 1
  {
    match v
    case Array(_, _) => 1 + ElementsHeight(v, 0)
    case Object(_, _) => 2 + PropertiesHeight(v, 0)
    case _ => 0
  }

  function ElementsHeight(v: JsValue, i: nat): (h: nat)
    requires v.Array? && i <= |v.elements|
    ensures forall k :: i <= k < |v.elements| ==> Height(v.elements[k]) <= h
    ensures h == 0 || exists k :: i <= k < |v.elements| && Height(v.elements[k]) == h
    decreases v, 0, |v.elements| - i
  {
    if i == |v.elements| then 0
    else
      var rest := ElementsHeight(v, i + 1);
      var here := Height(v.elements[i]);
      if here >= rest then here else rest
  }

  function PropertiesHeight(v: JsValue, i: nat): (h: nat)
    requires v.Object? && i <= |v.properties|
    ensures forall k :: i <= k < |v.properties| ==> Height(v.properties[k].value) <= h
    decreases v, 0, |v.properties| - i
  {
    if i == |v.properties| then 0
    else
      var rest := PropertiesHeight(v, i + 1);
      var here := Height(v.properties[i].value);
      if here >= rest then here else rest
  }

  /** A fresh array with the given elements, and its height. */
  lemma FreshArrayHeight(elements: seq<JsValue>, bound: nat)
    requires forall k :: 0 <= k < |elements| ==> Height(elements[k]) <= bound
    ensures Height(Array(None, elements)) <= 1 + bound
  {
    var h := ElementsHeight(Array(None, elements), 0);
    if h != 0 {
      var k :| 0 <= k < |elements| && Height(elements[k]) == h;
    }
  }

  /** The decimal digits of an array index. */
  function IndexKey(i: nat): (r: string)
    ensures |r| > 0 && forall k :: 0 <= k < |r| ==> '0' <= r[k] <= '9'
  {
    var digit := ['0' + (i % 10) as char];
    if i < 10 then digit else IndexKey(i / 10) + digit
  }

  /** The index `i < n` whose key is `key`, if any. */
  function FindIndex(key: string, n: nat, i: nat): (r: Option<nat>)
    requires i <= n
    ensures r.Some? ==> i <= r.value < n && IndexKey(r.value) == key
    decreases n - i
  {
    if i == n then None else if IndexKey(i) == key then Some(i) else FindIndex(key, n, i + 1)
  }

  /** The number an array's `length` holds. */
  function LengthValue(n: nat): Number {
    if n == 0 then PosZero else Finite(n as real)
  }

  /**
   * `Object.getOwnPropertyNames(v)` (`AllKeys`) or `Object.keys(v)` (`EnumerableKeys`), for an
   * object or an array: an array has its indices and, counting non-enumerable ones, `length`.
   */
  function OwnKeys(v: JsValue, mode: KeysMode): seq<string> {
    match v
    case Object(_, props) =>
      var listed := if mode == AllKeys then props else Seqs.Filter(props, (p: Property) => p.enumerable);
      seq(|listed|, k requires 0 <= k < |listed| => listed[k].name)
    case Array(_, elements) =>
      seq(|elements|, k requires 0 <= k < |elements| => IndexKey(k)) + (if mode == AllKeys then ["length"] else [])
    case _ => []
  }

  /** `v[key]` for an object or an array. */
  function Get(v: JsValue, key: string): JsValue {
    match v
    case Object(_, props) => LookupProperty(props, key)
    case Array(_, elements) =>
      if key == "length" then Number(LengthValue(|elements|))
      else
        var i := FindIndex(key, |elements|, 0);
        if i.Some? then elements[i.value] else Undefined
    case _ => Undefined
  }

  /** A property read on an object is no higher than the object's properties. */
  lemma {:induction false} LookupHeight(v: JsValue, key: string, i: nat)
    requires v.Object? && i <= |v.properties|
    ensures Height(LookupProperty(v.properties[i..], key)) <= PropertiesHeight(v, i)
    decreases |v.properties| - i
  {
    if i < |v.properties| {
      assert v.properties[i..][1..] == v.properties[i + 1..];
      if v.properties[i].name != key {
        LookupHeight(v, key, i + 1);
      }
    }
  }

  /** The array `keys.map(it => v[it])`. */
  function ValuesOf(v: JsValue, keys: seq<string>): (r: seq<JsValue>)
    ensures |r| == |keys| && forall k :: 0 <= k < |keys| ==> r[k] == Get(v, keys[k])
  {
    seq(|keys|, k requires 0 <= k < |keys| => Get(v, keys[k]))
  }

  /** The fresh array of an object's values is lower than the object. */
  lemma ValuesHeight(v: JsValue, keys: seq<string>)
    requires v.Object?
    ensures Height(Array(None, ValuesOf(v, keys))) < Height(v)
  {
    var values := ValuesOf(v, keys);
    forall k | 0 <= k < |values| ensures Height(values[k]) <= PropertiesHeight(v, 0) {
      LookupHeight(v, keys[k], 0);
      assert v.properties[0..] == v.properties;
    }
    FreshArrayHeight(values, PropertiesHeight(v, 0));
  }

  /** The fresh array of the sorted key names. */
  function KeyArray(keys: seq<string>): (r: JsValue)
    ensures r.Array? && r.ref.None? && |r.elements| == |keys|
    ensures forall k :: 0 <= k < |keys| ==> r.elements[k] == Str(keys[k])
  {
    Array(None, seq(|keys|, k requires 0 <= k < |keys| => Str(keys[k])))
  }

  /** `number`: `Object.is` when strict; otherwise NaN equals only NaN, and the rest is `===`. */
  function CompareNumbers(first: JsValue, second: JsValue, options: Options): bool
    requires first.Number? && second.Number?
  {
    if options.strictNumberEquality then SameValue(first, second)
    else if first.n.NaN? then second.n.NaN?
    else StrictEq(first, second)
  }

  /** Whether `first`'s identity is in the map, paired with a truthy value `===` to `second`. */
  predicate MemoHit(first: JsValue, second: JsValue, memo: Memo)
    requires first.Array? || first.Object?
  {
    first.ref.Some? && first.ref.value in memo && Truthy(memo[first.ref.value]) && StrictEq(memo[first.ref.value], second)
  }

  /** The map after recording that `first` is being compared with `second`. */
  function Record(first: JsValue, second: JsValue, memo: Memo): (r: Memo)
    requires first.Array? || first.Object?
    ensures first.ref.Some? ==> r == memo[first.ref.value := second]
    ensures first.ref.None? ==> r == memo
  {
    if first.ref.Some? then memo[first.ref.value := second] else memo
  }

  /** `deepEquals0(first, second, currentDepth)` from the map `memo`: the outcome and the map afterwards. */
  function Compare(first: JsValue, second: JsValue, depth: int, memo: Memo, options: Options, variant: Variant)
    : (Outcome, Memo)
    decreases Height(first), 1
  {
    if TypeOf(first) != TypeOf(second) then (Returns(false), memo)
    else if depth == options.maximumDepth then (Returns(StrictEq(first, second)), memo)
    else match TypeOf(first)
      case TNumber => (Returns(CompareNumbers(first, second, options)), memo)
      case TUndefined => (Returns(true), memo)
      case TObject =>
        if first.Null? then (Returns(second.Null?), memo)
        else if MemoHit(first, second, memo) then (Returns(true), memo)
        else
          var memo1 := Record(first, second, memo);
          if first.Array? then
            if !second.Array? || |first.elements| != |second.elements| then (Returns(false), memo1)
            else CompareElements(first.elements, second.elements, 0, depth + 1, memo1, options, variant, Height(first))
          else CompareObjects(first, second, depth, memo1, options, variant)
      case _ => (Returns(StrictEq(first, second)), memo)
  }

  /** The loop over the elements of two arrays of the same length, from index `i` on. */
  function CompareElements(firsts: seq<JsValue>, seconds: seq<JsValue>, i: nat, depth: int, memo: Memo, options: Options,
                           variant: Variant, bound: nat): (Outcome, Memo)
    requires |firsts| == |seconds| && i <= |firsts|
    requires forall k :: 0 <= k < |firsts| ==> Height(firsts[k]) < bound
    decreases bound, 0, |firsts| - i
  {
    if i == |firsts| then (Returns(true), memo)
    else
      var element := Compare(firsts[i], seconds[i], depth, memo, options, variant);
      if element.0 == Returns(true) then CompareElements(firsts, seconds, i + 1, depth, element.1, options, variant, bound)
      else element
  }

  /** The key names of `first` and `second` after `sort()`. */
  function SortedKeys(v: JsValue, options: Options): seq<string> {
    Strings.Sort(OwnKeys(v, options.consideredKeys))
  }

  /** The object branch: the key count, the sorted key arrays at this depth, then the value arrays one deeper. */
  function CompareObjects(first: JsValue, second: JsValue, depth: int, memo: Memo, options: Options, variant: Variant)
    : (Outcome, Memo)
    requires first.Object?
    decreases Height(first), 0
  {
    if second.Null? then (Throws, memo)
    else
      var firstKeys := OwnKeys(first, options.consideredKeys);
      var secondKeys := OwnKeys(second, options.consideredKeys);
      if |firstKeys| != |secondKeys| then (Returns(false), memo)
      else
        var sortedFirstKeys := Strings.Sort(firstKeys);
        var sortedSecondKeys := Strings.Sort(secondKeys);
        FreshArrayHeight(KeyArray(sortedFirstKeys).elements, 0);
        var keys := Compare(KeyArray(sortedFirstKeys), KeyArray(sortedSecondKeys), depth, memo, options, variant);
        if keys.0.Throws? then keys
        else if !keys.0.b then (Returns(variant == AsWritten), keys.1)
        else
          ValuesHeight(first, sortedFirstKeys);
          var values := Compare(Array(None, ValuesOf(first, sortedFirstKeys)), Array(None, ValuesOf(second, sortedSecondKeys)), depth + 1,
                                keys.1, options, variant);
          if values.0.Throws? then values
          else if variant == AsWritten then (Returns(!values.0.b), values.1)
          else values
  }

  /** `deepEquals(first, second, options)`: depth 1 and an empty map. */
  function DeepEqualsResult(first: JsValue, second: JsValue, options: Options, variant: Variant): Outcome {
    Compare(first, second, 1, map[], options, variant).0
  }

  /** Operands of different `typeof` are unequal, and nothing is recorded. */
  lemma TypeOfMismatch(first: JsValue, second: JsValue, depth: int, memo: Memo, options: Options, variant: Variant)
    requires TypeOf(first) != TypeOf(second)
    ensures Compare(first, second, depth, memo, options, variant) == (Returns(false), memo)
  {
  }

  /** `===` holds only between operands of the same `typeof`. */
  lemma StrictEqSameType(first: JsValue, second: JsValue)
    ensures StrictEq(first, second) ==> TypeOf(first) == TypeOf(second)
  {
  }

  /** At the maximum depth the comparison is `===`, and nothing is recorded. */
  lemma AtMaximumDepth(first: JsValue, second: JsValue, depth: int, memo: Memo, options: Options, variant: Variant)
    requires depth == options.maximumDepth
    ensures Compare(first, second, depth, memo, options, variant) == (Returns(StrictEq(first, second)), memo)
  {
    StrictEqSameType(first, second);
  }

  /** With `maximumDepth: 1`, `deepEquals` is `===` on the arguments themselves. */
  lemma DepthOneIsReference(first: JsValue, second: JsValue, options: Options, variant: Variant)
    requires options.maximumDepth == 1
    ensures DeepEqualsResult(first, second, options, variant) == Returns(StrictEq(first, second))
  {
    AtMaximumDepth(first, second, 1, map[], options, variant);
  }

  /**
   * Numbers: NaN equals NaN in every mode; +0 equals -0 unless numbers are compared strictly;
   * otherwise two numbers are equal exactly when they are one number.
   */
  lemma NumbersCompare(x: Number, y: Number, depth: int, memo: Memo, options: Options, variant: Variant)
    requires depth != options.maximumDepth
    ensures Compare(Number(x), Number(y), depth, memo, options, variant) ==
      (Returns(if x.NaN? then y.NaN?
               else if !options.strictNumberEquality && (x.PosZero? || x.NegZero?) then y.PosZero? || y.NegZero?
               else x == y), memo)
  {
  }

  /**
   * `null` equals only `null`, `undefined` equals only `undefined`, and `null` against an
   * array or object is unequal, at any depth.
   */
  lemma NullishCompare(v: JsValue, depth: int, memo: Memo, options: Options, variant: Variant)
    ensures Compare(Null, v, depth, memo, options, variant) == (Returns(v.Null?), memo)
    ensures Compare(Undefined, v, depth, memo, options, variant) == (Returns(v.Undefined?), memo)
  {
  }

  /**
   * An object compared with `null` below the maximum depth throws, as
   * `Object.getOwnPropertyNames(null)` does.
   */
  lemma ObjectAgainstNull(first: JsValue, depth: int, memo: Memo, options: Options, variant: Variant)
    requires first.Object? && depth != options.maximumDepth
    ensures Compare(first, Null, depth, memo, options, variant).0 == Throws
  {
  }

  /**
   * A pair already recorded is equal without looking inside: a recorded comparison that is
   * still running counts as succeeded. Nothing new is recorded.
   */
  lemma MemoizedPairIsEqual(first: JsValue, second: JsValue, depth: int, memo: Memo, options: Options, variant: Variant)
    requires (first.Array? || first.Object?) && TypeOf(second) == TObject
    requires depth != options.maximumDepth && MemoHit(first, second, memo)
    ensures Compare(first, second, depth, memo, options, variant) == (Returns(true), memo)
  {
  }

  /**
   * An array against a non-array or an array of another length is unequal; the pair is still
   * recorded.
   */
  lemma ArrayShapeMismatch(first: JsValue, second: JsValue, depth: int, memo: Memo, options: Options, variant: Variant)
    requires first.Array? && TypeOf(second) == TObject && depth != options.maximumDepth && !MemoHit(first, second, memo)
    requires !second.Array? || |first.elements| != |second.elements|
    ensures Compare(first, second, depth, memo, options, variant) == (Returns(false), Record(first, second, memo))
  {
  }

  /** A value of a `typeof` other than `object`. */
  predicate Primitive(v: JsValue) {
    TypeOf(v) != TObject
  }

  /** Number equality under the options, as the reference for the `number` case. */
  predicate NumberEqual(x: Number, y: Number, options: Options) {
    if x.NaN? then y.NaN?
    else if !options.strictNumberEquality && (x.PosZero? || x.NegZero?) then y.PosZero? || y.NegZero?
    else x == y
  }

  /** Equality of a primitive with any value: same `typeof`, and the same value (numbers as above). */
  predicate PrimitiveEqual(first: JsValue, second: JsValue, options: Options) {
    TypeOf(first) == TypeOf(second) &&
    if first.Number? then NumberEqual(first.n, second.n, options) else first == second
  }

  /** Below the maximum depth, a primitive is compared by `PrimitiveEqual`, and nothing is recorded. */
  lemma PrimitiveCompare(first: JsValue, second: JsValue, depth: int, memo: Memo, options: Options, variant: Variant)
    requires Primitive(first) && depth != options.maximumDepth
    ensures Compare(first, second, depth, memo, options, variant) == (Returns(PrimitiveEqual(first, second, options)), memo)
  {
  }

  /** A string is compared by its characters at every depth, the maximum depth included. */
  lemma StringCompare(x: string, second: JsValue, depth: int, memo: Memo, options: Options, variant: Variant)
    ensures Compare(Str(x), second, depth, memo, options, variant) == (Returns(second == Str(x)), memo)
  {
  }

  /** Each pair of elements from `i` on is equal under `PrimitiveEqual`. */
  predicate PrimitivesEqualFrom(firsts: seq<JsValue>, seconds: seq<JsValue>, i: nat, options: Options)
    requires |firsts| == |seconds|
  {
    forall k :: i <= k < |firsts| ==> PrimitiveEqual(firsts[k], seconds[k], options)
  }

  /** The element loop over primitives answers `PrimitivesEqualFrom` and records nothing. */
  lemma {:induction false} PrimitiveElements(firsts: seq<JsValue>, seconds: seq<JsValue>, i: nat, depth: int, memo: Memo,
                                             options: Options, variant: Variant, bound: nat)
    requires |firsts| == |seconds| && i <= |firsts|
    requires forall k :: 0 <= k < |firsts| ==> Height(firsts[k]) < bound && Primitive(firsts[k])
    requires depth != options.maximumDepth
    ensures CompareElements(firsts, seconds, i, depth, memo, options, variant, bound) ==
      (Returns(PrimitivesEqualFrom(firsts, seconds, i, options)), memo)
    decreases |firsts| - i
  {
    if i < |firsts| {
      PrimitiveCompare(firsts[i], seconds[i], depth, memo, options, variant);
      PrimitiveElements(firsts, seconds, i + 1, depth, memo, options, variant, bound);
    }
  }

  /**
   * Two arrays of one length whose first holds only primitives, not already recorded: equal
   * exactly when the elements are pairwise `PrimitiveEqual`; the pair is recorded.
   */
  lemma ArrayOfPrimitives(first: JsValue, second: JsValue, depth: int, memo: Memo, options: Options, variant: Variant)
    requires first.Array? && second.Array? && |first.elements| == |second.elements|
    requires forall k :: 0 <= k < |first.elements| ==> Primitive(first.elements[k])
    requires depth != options.maximumDepth && depth + 1 != options.maximumDepth && !MemoHit(first, second, memo)
    ensures Compare(first, second, depth, memo, options, variant) ==
      (Returns(PrimitivesEqualFrom(first.elements, second.elements, 0, options)), Record(first, second, memo))
  {
    PrimitiveElements(first.elements, second.elements, 0, depth + 1, Record(first, second, memo), options, variant, Height(first));
  }

  /** The element loop over strings answers whether the elements are pairwise the same. */
  lemma {:induction false} StringElements(firsts: seq<JsValue>, seconds: seq<JsValue>, i: nat, depth: int, memo: Memo,
                                          options: Options, variant: Variant, bound: nat)
    requires |firsts| == |seconds| && i <= |firsts|
    requires forall k :: 0 <= k < |firsts| ==> Height(firsts[k]) < bound && firsts[k].Str?
    ensures CompareElements(firsts, seconds, i, depth, memo, options, variant, bound) == (Returns(firsts[i..] == seconds[i..]), memo)
    decreases |firsts| - i
  {
    if i < |firsts| {
      StringCompare(firsts[i].s, seconds[i], depth, memo, options, variant);
      StringElements(firsts, seconds, i + 1, depth, memo, options, variant, bound);
      assert firsts[i..] == [firsts[i]] + firsts[i + 1..] && seconds[i..] == [seconds[i]] + seconds[i + 1..];
    }
  }

  /** The sorted key arrays of two objects with as many keys compare as the key lists, and record nothing. */
  lemma KeyArraysCompare(x: seq<string>, y: seq<string>, depth: int, memo: Memo, options: Options, variant: Variant)
    requires |x| == |y| && depth != options.maximumDepth
    ensures Compare(KeyArray(x), KeyArray(y), depth, memo, options, variant) == (Returns(x == y), memo)
  {
    var a, b := KeyArray(x), KeyArray(y);
    StringElements(a.elements, b.elements, 0, depth + 1, memo, options, variant, Height(a));
    assert a.elements[0..] == a.elements && b.elements[0..] == b.elements;
    if a.elements == b.elements {
      assert forall k :: 0 <= k < |x| ==> x[k] == y[k] by {
        forall k | 0 <= k < |x| ensures x[k] == y[k] {
          assert a.elements[k] == b.elements[k];
        }
      }
    }
  }

  /** An object whose property values are all primitives. */
  predicate FlatObject(v: JsValue) {
    v.Object? && forall k :: 0 <= k < |v.properties| ==> Primitive(v.properties[k].value)
  }

  lemma {:induction false} LookupPrimitive(props: seq<Property>, key: string)
    requires forall k :: 0 <= k < |props| ==> Primitive(props[k].value)
    ensures Primitive(LookupProperty(props, key))
    decreases |props|
  {
    if props != [] && props[0].name != key {
      LookupPrimitive(props[1..], key);
    }
  }

  /**
   * Whether two objects agree on their sorted keys and, key by key, on their primitive values:
   * what the object branch is meant to answer for a flat first object.
   */
  predicate FlatObjectsEqual(first: JsValue, second: JsValue, options: Options) {
    var firstKeys, secondKeys := SortedKeys(first, options), SortedKeys(second, options);
    && firstKeys == secondKeys
    && forall k :: 0 <= k < |firstKeys| ==> PrimitiveEqual(Get(first, firstKeys[k]), Get(second, firstKeys[k]), options)
  }

  /**
   * The object branch on a flat first object and a non-null second operand, if not already
   * recorded and far enough from the maximum depth: a different key count is unequal; otherwise
   * the written code answers the NEGATION of `FlatObjectsEqual`, the intended one answers it.
   */
  lemma FlatObjectsCompare(first: JsValue, second: JsValue, depth: int, memo: Memo, options: Options, variant: Variant)
    requires FlatObject(first) && (second.Array? || second.Object?) && !MemoHit(first, second, memo)
    requires depth != options.maximumDepth && depth + 1 != options.maximumDepth && depth + 2 != options.maximumDepth
    ensures Compare(first, second, depth, memo, options, variant).0 ==
      Returns(|OwnKeys(first, options.consideredKeys)| == |OwnKeys(second, options.consideredKeys)| &&
              if variant == AsWritten then !FlatObjectsEqual(first, second, options) else FlatObjectsEqual(first, second, options))
  {
    ObjectBranch(first, second, depth, memo, options, variant);
    FlatObjectsBranch(first, second, depth, Record(first, second, memo), options, variant);
  }

  /** Below the maximum depth, an object not already recorded is recorded, then goes to the object branch. */
  lemma ObjectBranch(first: JsValue, second: JsValue, depth: int, memo: Memo, options: Options, variant: Variant)
    requires first.Object? && TypeOf(second) == TObject && !MemoHit(first, second, memo) && depth != options.maximumDepth
    ensures Compare(first, second, depth, memo, options, variant) ==
      CompareObjects(first, second, depth, Record(first, second, memo), options, variant)
  {
  }

  lemma FlatObjectsBranch(first: JsValue, second: JsValue, depth: int, memo: Memo, options: Options, variant: Variant)
    requires FlatObject(first) && (second.Array? || second.Object?)
    requires depth != options.maximumDepth && depth + 1 != options.maximumDepth && depth + 2 != options.maximumDepth
    ensures CompareObjects(first, second, depth, memo, options, variant).0 ==
      Returns(|OwnKeys(first, options.consideredKeys)| == |OwnKeys(second, options.consideredKeys)| &&
              if variant == AsWritten then !FlatObjectsEqual(first, second, options) else FlatObjectsEqual(first, second, options))
  {
    var firstKeys, secondKeys := SortedKeys(first, options), SortedKeys(second, options);
    if |OwnKeys(first, options.consideredKeys)| == |OwnKeys(second, options.consideredKeys)| {
      KeyArraysCompare(firstKeys, secondKeys, depth, memo, options, variant);
      var equal := FlatObjectsEqual(first, second, options);
      if firstKeys == secondKeys {
        FlatValues(first, second, firstKeys, depth + 1, memo, options, variant);
        KeysThenValues(first, second, depth, memo, options, variant);
        assert CompareObjects(first, second, depth, memo, options, variant).0 == Returns(if variant == AsWritten then !equal else equal);
      } else {
        KeysDiffer(first, second, depth, memo, options, variant);
        assert !equal;
        assert CompareObjects(first, second, depth, memo, options, variant).0 == Returns(variant == AsWritten);
      }
    } else {
      CountsDiffer(first, second, depth, memo, options, variant);
    }
  }

  /** The object branch when the key counts differ. */
  lemma CountsDiffer(first: JsValue, second: JsValue, depth: int, memo: Memo, options: Options, variant: Variant)
    requires first.Object? && !second.Null?
    requires |OwnKeys(first, options.consideredKeys)| != |OwnKeys(second, options.consideredKeys)|
    ensures CompareObjects(first, second, depth, memo, options, variant) == (Returns(false), memo)
  {
  }

  /** The object branch when the sorted key arrays compare unequal. */
  lemma KeysDiffer(first: JsValue, second: JsValue, depth: int, memo: Memo, options: Options, variant: Variant)
    requires first.Object? && !second.Null?
    requires |OwnKeys(first, options.consideredKeys)| == |OwnKeys(second, options.consideredKeys)|
    requires Compare(KeyArray(SortedKeys(first, options)), KeyArray(SortedKeys(second, options)), depth, memo, options, variant).0 == Returns(false)
    ensures CompareObjects(first, second, depth, memo, options, variant) ==
      (Returns(variant == AsWritten), Compare(KeyArray(SortedKeys(first, options)), KeyArray(SortedKeys(second, options)), depth, memo, options, variant).1)
  {
  }

  /** The object branch when comparing the sorted key arrays throws. */
  lemma KeysThrow(first: JsValue, second: JsValue, depth: int, memo: Memo, options: Options, variant: Variant, keys: (Outcome, Memo))
    requires first.Object? && !second.Null?
    requires |OwnKeys(first, options.consideredKeys)| == |OwnKeys(second, options.consideredKeys)|
    requires keys == Compare(KeyArray(SortedKeys(first, options)), KeyArray(SortedKeys(second, options)), depth, memo, options, variant)
    requires keys.0.Throws?
    ensures CompareObjects(first, second, depth, memo, options, variant) == keys
  {
  }

  /** The object branch after the sorted key arrays compare equal, from any map: the value arrays decide. */
  lemma ValuesDecide(first: JsValue, second: JsValue, depth: int, memo: Memo, options: Options, variant: Variant,
                     keys: (Outcome, Memo), values: (Outcome, Memo))
    requires first.Object? && !second.Null?
    requires |OwnKeys(first, options.consideredKeys)| == |OwnKeys(second, options.consideredKeys)|
    requires keys == Compare(KeyArray(SortedKeys(first, options)), KeyArray(SortedKeys(second, options)), depth, memo, options, variant)
    requires keys.0 == Returns(true)
    requires values == Compare(Array(None, ValuesOf(first, SortedKeys(first, options))), Array(None, ValuesOf(second, SortedKeys(second, options))),
                               depth + 1, keys.1, options, variant)
    ensures CompareObjects(first, second, depth, memo, options, variant) ==
      if values.0.Returns? && variant == AsWritten then (Returns(!values.0.b), values.1) else values
  {
  }

  /** The object branch when the sorted key arrays compare equal: the value arrays decide. */
  lemma KeysThenValues(first: JsValue, second: JsValue, depth: int, memo: Memo, options: Options, variant: Variant)
    requires first.Object? && !second.Null?
    requires |OwnKeys(first, options.consideredKeys)| == |OwnKeys(second, options.consideredKeys)|
    requires Compare(KeyArray(SortedKeys(first, options)), KeyArray(SortedKeys(second, options)), depth, memo, options, variant) == (Returns(true), memo)
    ensures var values := Compare(Array(None, ValuesOf(first, SortedKeys(first, options))), Array(None, ValuesOf(second, SortedKeys(second, options))),
                                  depth + 1, memo, options, variant);
      values.0.Returns? ==>
      CompareObjects(first, second, depth, memo, options, variant) ==
        (Returns(if variant == AsWritten then !values.0.b else values.0.b), values.1)
  {
  }

  lemma FlatValues(first: JsValue, second: JsValue, keys: seq<string>, depth: int, memo: Memo, options: Options, variant: Variant)
    requires FlatObject(first) && keys == SortedKeys(first, options) && keys == SortedKeys(second, options)
    requires depth != options.maximumDepth && depth + 1 != options.maximumDepth
    ensures Compare(Array(None, ValuesOf(first, keys)), Array(None, ValuesOf(second, keys)), depth, memo, options, variant) ==
      (Returns(FlatObjectsEqual(first, second, options)), memo)
  {
    var a := Array(None, ValuesOf(first, keys));
    var b := Array(None, ValuesOf(second, keys));
    forall k | 0 <= k < |a.elements| ensures Primitive(a.elements[k]) {
      LookupPrimitive(first.properties, keys[k]);
    }
    assert !MemoHit(a, b, memo) && Record(a, b, memo) == memo;
    ArrayOfPrimitives(a, b, depth, memo, options, variant);
    FlatValuesEqual(first, second, keys, a.elements, b.elements, options);
  }

  /** The values of two objects under the same sorted keys are pairwise equal exactly when the objects are. */
  lemma FlatValuesEqual(first: JsValue, second: JsValue, keys: seq<string>, firsts: seq<JsValue>, seconds: seq<JsValue>, options: Options)
    requires keys == SortedKeys(first, options) && keys == SortedKeys(second, options)
    requires firsts == ValuesOf(first, keys) && seconds == ValuesOf(second, keys)
    ensures PrimitivesEqualFrom(firsts, seconds, 0, options) == FlatObjectsEqual(first, second, options)
  {
  }

  /** As written, `deepEquals({}, {})` is false even for one object compared with itself. */
  lemma EmptyObjectsUnequal(r: nat)
    ensures DeepEqualsResult(Object(Some(r), []), Object(Some(r), []), Defaults, AsWritten) == Returns(false)
  {
    FlatObjectsCompare(Object(Some(r), []), Object(Some(r), []), 1, map[], Defaults, AsWritten);
  }

  /** An object of one enumerable property. */
  function Single(r: nat, name: string, value: JsValue): (v: JsValue)
    ensures v.Object? && OwnKeys(v, AllKeys) == [name] && Get(v, name) == value
  {
    Object(Some(r), [Property(name, value, true)])
  }

  lemma SortSingle(name: string)
    ensures Strings.Sort([name]) == [name]
  {
    var r := Strings.Sort([name]);
    assert r[0] in multiset(r);
  }

  /**
   * As written, objects with as many keys but different keys or different values are equal:
   * `deepEquals({a: 1}, {b: 1})` and `deepEquals({a: 1}, {a: 2})` are true.
   */
  lemma DifferentObjectsEqual(r1: nat, r2: nat, a: string, b: string, x: Number, y: Number)
    requires a != b && !NumberEqual(x, y, Defaults)
    ensures DeepEqualsResult(Single(r1, a, Number(x)), Single(r2, b, Number(x)), Defaults, AsWritten) == Returns(true)
    ensures DeepEqualsResult(Single(r1, a, Number(x)), Single(r2, a, Number(y)), Defaults, AsWritten) == Returns(true)
  {
    SortSingle(a);
    SortSingle(b);
    FlatObjectsCompare(Single(r1, a, Number(x)), Single(r2, b, Number(x)), 1, map[], Defaults, AsWritten);
    var first, second := Single(r1, a, Number(x)), Single(r2, a, Number(y));
    FlatObjectsCompare(first, second, 1, map[], Defaults, AsWritten);
    assert !PrimitiveEqual(Get(first, SortedKeys(first, Defaults)[0]), Get(second, SortedKeys(first, Defaults)[0]), Defaults);
  }

  /**
   * The intended comparison is reflexive below the maximum depth: every value equals itself,
   * whatever the map holds, NaN and arrays without identity included.
   */
  lemma {:induction false} IntendedReflexive(v: JsValue, depth: int, memo: Memo, options: Options)
    requires options.maximumDepth < depth
    ensures Compare(v, v, depth, memo, options, Intended).0 == Returns(true)
    decreases Height(v), 1
  {
    if (v.Array? || v.Object?) && !MemoHit(v, v, memo) {
      var memo1 := Record(v, v, memo);
      if v.Array? {
        ElementsReflexive(v.elements, 0, depth + 1, memo1, options, Height(v));
      } else {
        ObjectBranch(v, v, depth, memo, options, Intended);
        ObjectReflexive(v, depth, memo1, options);
      }
    }
  }

  lemma {:induction false} ElementsReflexive(elements: seq<JsValue>, i: nat, depth: int, memo: Memo, options: Options, bound: nat)
    requires i <= |elements| && options.maximumDepth < depth
    requires forall k :: 0 <= k < |elements| ==> Height(elements[k]) < bound
    ensures CompareElements(elements, elements, i, depth, memo, options, Intended, bound).0 == Returns(true)
    decreases bound, 0, |elements| - i
  {
    if i < |elements| {
      IntendedReflexive(elements[i], depth, memo, options);
      var element := Compare(elements[i], elements[i], depth, memo, options, Intended);
      ElementsReflexive(elements, i + 1, depth, element.1, options, bound);
    }
  }

  lemma {:induction false} ObjectReflexive(v: JsValue, depth: int, memo: Memo, options: Options)
    requires v.Object? && options.maximumDepth < depth
    ensures CompareObjects(v, v, depth, memo, options, Intended).0 == Returns(true)
    decreases Height(v), 0
  {
    var sorted := Strings.Sort(OwnKeys(v, options.consideredKeys));
    FreshArrayHeight(KeyArray(sorted).elements, 0);
    IntendedReflexive(KeyArray(sorted), depth, memo, options);
    var keys := Compare(KeyArray(sorted), KeyArray(sorted), depth, memo, options, Intended);
    assert keys.0 == Returns(true);
    ValuesHeight(v, sorted);
    var valueArray := Array(None, ValuesOf(v, sorted));
    IntendedReflexive(valueArray, depth + 1, keys.1, options);
    var values := Compare(valueArray, valueArray, depth + 1, keys.1, options, Intended);
    assert values.0 == Returns(true);
    assert CompareObjects(v, v, depth, memo, options, Intended) == values;
  }

  /**
   * The number cases of equal.test.ts at the top level: infinities of one sign are equal and of
   * opposite signs are not, NaN equals NaN, and +0 equals -0 unless numbers are compared strictly.
   */
  lemma NumberExamples(strict: bool)
    ensures var options := Defaults.(strictNumberEquality := strict);
      && DeepEqualsResult(Number(PosInf), Number(PosInf), options, AsWritten) == Returns(true)
      && DeepEqualsResult(Number(NegInf), Number(NegInf), options, AsWritten) == Returns(true)
      && DeepEqualsResult(Number(PosInf), Number(NegInf), options, AsWritten) == Returns(false)
      && DeepEqualsResult(Number(NaN), Number(NaN), options, AsWritten) == Returns(true)
      && DeepEqualsResult(Number(PosZero), Number(NegZero), options, AsWritten) == Returns(!strict)
  {
    var options := Defaults.(strictNumberEquality := strict);
    NumbersCompare(PosInf, PosInf, 1, map[], options, AsWritten);
    NumbersCompare(NegInf, NegInf, 1, map[], options, AsWritten);
    NumbersCompare(PosInf, NegInf, 1, map[], options, AsWritten);
    NumbersCompare(NaN, NaN, 1, map[], options, AsWritten);
    NumbersCompare(PosZero, NegZero, 1, map[], options, AsWritten);
  }

  /**
   * `deepEquals0` with its map `memoizedComparisons`. The options and the variant are fixed for
   * one call of `deepEquals`.
   */
  class DeepComparison {
    const options: Options
    const variant: Variant
    var memoizedComparisons: Memo

    constructor(options: Options, variant: Variant)
      ensures this.options == options && this.variant == variant && memoizedComparisons == map[]
    {
      this.options := options;
      this.variant := variant;
      memoizedComparisons := map[];
    }

    /** `deepEquals0(first, second, currentDepth)`: the outcome and the map are those of `Compare`. */
    method DeepEquals0(first: JsValue, second: JsValue, currentDepth: int) returns (r: Outcome)
      modifies this
      ensures (r, memoizedComparisons) == Compare(first, second, currentDepth, old(memoizedComparisons), options, variant)
      decreases Height(first), 2
    {
      if TypeOf(first) != TypeOf(second) {
        return Returns(false);
      }
      if currentDepth == options.maximumDepth {
        return Returns(StrictEq(first, second));
      }
      if first.Number? {
        if options.strictNumberEquality {
          return Returns(SameValue(first, second));
        }
        if first.n.NaN? {
          return Returns(second.n.NaN?);
        }
        return Returns(StrictEq(first, second));
      }
      if first.Undefined? {
        return Returns(true);
      }
      if TypeOf(first) != TObject {
        return Returns(StrictEq(first, second));
      }
      if first.Null? {
        return Returns(second.Null?);
      }
      if MemoHit(first, second, memoizedComparisons) {
        return Returns(true);
      }
      memoizedComparisons := Record(first, second, memoizedComparisons);
      if first.Array? {
        if !second.Array? || |first.elements| != |second.elements| {
          return Returns(false);
        }
        ghost var recorded := memoizedComparisons;
        var i := 0;
        while i < |first.elements|
          invariant 0 <= i <= |first.elements|
          invariant CompareElements(first.elements, second.elements, 0, currentDepth + 1, recorded, options, variant, Height(first)) ==
            CompareElements(first.elements, second.elements, i, currentDepth + 1, memoizedComparisons, options, variant, Height(first))
        {
          var element := DeepEquals0(first.elements[i], second.elements[i], currentDepth + 1);
          if element != Returns(true) {
            return element;
          }
          i := i + 1;
        }
        return Returns(true);
      }
      ObjectBranch(first, second, currentDepth, old(memoizedComparisons), options, variant);
      r := DeepEqualsObject(first, second, currentDepth);
    }

    /** The object branch of `deepEquals0`, after `first` has been recorded. */
    method DeepEqualsObject(first: JsValue, second: JsValue, currentDepth: int) returns (r: Outcome)
      requires first.Object?
      modifies this
      ensures (r, memoizedComparisons) == CompareObjects(first, second, currentDepth, old(memoizedComparisons), options, variant)
      decreases Height(first), 1
    {
      if second.Null? {
        return Throws;
      }
      ghost var memo := memoizedComparisons;
      var firstKeys := OwnKeys(first, options.consideredKeys);
      var secondKeys := OwnKeys(second, options.consideredKeys);
      if |firstKeys| != |secondKeys| {
        CountsDiffer(first, second, currentDepth, memo, options, variant);
        return Returns(false);
      }
      var sortedFirstKeys := Strings.Sort(firstKeys);
      var sortedSecondKeys := Strings.Sort(secondKeys);
      FreshArrayHeight(KeyArray(sortedFirstKeys).elements, 0);
      var keys := DeepEquals0(KeyArray(sortedFirstKeys), KeyArray(sortedSecondKeys), currentDepth);
      if keys.Throws? {
        KeysThrow(first, second, currentDepth, memo, options, variant, (keys, memoizedComparisons));
        return keys;
      }
      if !keys.b {
        KeysDiffer(first, second, currentDepth, memo, options, variant);
        return Returns(variant == AsWritten);
      }
      ghost var afterKeys := memoizedComparisons;
      r := DeepEqualsValues(first, second, sortedFirstKeys, sortedSecondKeys, currentDepth);
      ValuesDecide(first, second, currentDepth, memo, options, variant, (keys, afterKeys),
                   Compare(Array(None, ValuesOf(first, sortedFirstKeys)), Array(None, ValuesOf(second, sortedSecondKeys)),
                           currentDepth + 1, afterKeys, options, variant));
    }

    /**
     * The end of the object branch: the arrays of values under the sorted keys, one level deeper;
     * as written, a completed comparison's answer is negated.
     */
    method DeepEqualsValues(first: JsValue, second: JsValue, sortedFirstKeys: seq<string>, sortedSecondKeys: seq<string>,
                            currentDepth: int) returns (r: Outcome)
      requires first.Object?
      modifies this
      ensures var values := Compare(Array(None, ValuesOf(first, sortedFirstKeys)), Array(None, ValuesOf(second, sortedSecondKeys)),
                                    currentDepth + 1, old(memoizedComparisons), options, variant);
        (r, memoizedComparisons) == if values.0.Returns? && variant == AsWritten then (Returns(!values.0.b), values.1) else values
      decreases Height(first), 0
    {
      ValuesHeight(first, sortedFirstKeys);
      var values := DeepEquals0(Array(None, ValuesOf(first, sortedFirstKeys)), Array(None, ValuesOf(second, sortedSecondKeys)),
                                currentDepth + 1);
      if values.Throws? {
        return values;
      }
      if variant == AsWritten {
        return Returns(!values.b);
      }
      return values;
    }
  }

  /** `deepEquals(first, second, options)`: a fresh map, depth 1. */
  method DeepEquals(first: JsValue, second: JsValue, options: Options, variant: Variant) returns (r: Outcome)
    ensures r == DeepEqualsResult(first, second, options, variant)
  {
    var comparison := new DeepComparison(options, variant);
    r := comparison.DeepEquals0(first, second, 1);
  }
}
