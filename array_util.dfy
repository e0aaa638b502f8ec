/** `arrayEquals` of frontend/src/util/array.ts: shallow equality of two optional arrays. */
module ArrayUtil {
  import opened Wrappers
  import opened JsValues

  /** The declared argument type: an array, `null` or `undefined`. */
  predicate ArrayOrNullish(v: JsValue) {
    v.Array? || v.Null? || v.Undefined?
  }

  /** Both are arrays of the same length whose elements are pairwise `===`. */
  predicate SameElements(arr: JsValue, other: JsValue) {
    && arr.Array? && other.Array?
    && |arr.elements| == |other.elements|
    && forall i :: 0 <= i < |arr.elements| ==> StrictEq(arr.elements[i], other.elements[i])
  }

  /** What `arrayEquals` answers: the same reference (or the same nullish value), or the same elements. */
  predicate ArraysEqual(arr: JsValue, other: JsValue) {
    StrictEq(arr, other) || SameElements(arr, other)
  }

  /** `arrayEquals(arr, other)`: the reference check, the nullish check, the length check and the loop. */
  method ArrayEquals(arr: JsValue, other: JsValue) returns (r: bool)
    requires ArrayOrNullish(arr) && ArrayOrNullish(other)
    ensures r == ArraysEqual(arr, other)
  {
    if StrictEq(arr, other) {
      return true;
    }
    if !Truthy(arr) || !Truthy(other) {
      return false;
    }
    if |arr.elements| != |other.elements| {
      return false;
    }
    for i := 0 to |arr.elements|
      invariant forall j :: 0 <= j < i ==> StrictEq(arr.elements[j], other.elements[j])
    {
      if !StrictEq(arr.elements[i], other.elements[i]) {
        return false;
      }
    }
    return true;
  }

  /** The answer does not depend on the order of the arguments. */
  lemma ArraysEqualSymmetric(arr: JsValue, other: JsValue)
    ensures ArraysEqual(arr, other) == ArraysEqual(other, arr)
  {
    StrictEqSymmetric(arr, other);
    if SameElements(arr, other) {
      forall i | 0 <= i < |other.elements| ensures StrictEq(other.elements[i], arr.elements[i]) {
        StrictEqSymmetric(arr.elements[i], other.elements[i]);
      }
    }
    if SameElements(other, arr) {
      forall i | 0 <= i < |arr.elements| ensures StrictEq(arr.elements[i], other.elements[i]) {
        StrictEqSymmetric(other.elements[i], arr.elements[i]);
      }
    }
  }

  /**
   * Two `null`s, two `undefined`s and one array reference twice are equal; `null` against
   * `undefined`, or a nullish value against an array, is not.
   */
  lemma ArraysEqualNullish(ref: nat, elements: seq<JsValue>, a: JsValue)
    requires a.Array?
    ensures ArraysEqual(Null, Null) && ArraysEqual(Undefined, Undefined)
    ensures ArraysEqual(Array(Some(ref), elements), Array(Some(ref), elements))
    ensures !ArraysEqual(Null, Undefined) && !ArraysEqual(Undefined, Null)
    ensures !ArraysEqual(Null, a) && !ArraysEqual(a, Undefined)
  {
  }

  /** Arrays of different lengths are unequal unless they are one reference. */
  lemma ArraysEqualLengths(a: JsValue, b: JsValue)
    requires a.Array? && b.Array? && |a.elements| != |b.elements|
    ensures ArraysEqual(a, b) <==> SameRef(a.ref, b.ref)
  {
  }

  /**
   * Elements are compared with `===`: two distinct arrays holding NaN are unequal, arrays holding
   * +0 and -0 are equal, and arrays holding two distinct but equal-looking arrays are unequal.
   */
  lemma ArraysEqualElementwise(r1: Option<nat>, r2: Option<nat>, elements: seq<JsValue>)
    requires !SameRef(r1, r2)
    ensures !ArraysEqual(Array(r1, [Number(NaN)]), Array(r2, [Number(NaN)]))
    ensures ArraysEqual(Array(r1, [Number(PosZero)]), Array(r2, [Number(NegZero)]))
    ensures !ArraysEqual(Array(r1, [Array(None, elements)]), Array(r2, [Array(None, elements)]))
  {
    assert !StrictEq(Array(r1, [Number(NaN)]).elements[0], Array(r2, [Number(NaN)]).elements[0]);
    assert !StrictEq(Array(r1, [Array(None, elements)]).elements[0], Array(r2, [Array(None, elements)]).elements[0]);
  }
}
