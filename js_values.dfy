/**
 * JavaScript values as the validators, `arrayEquals` and `deepEquals` see them: the result of
 * `typeof`, strict equality `===`, `Object.is`, truthiness and property reads.
 *
 * Numbers are described without floating point: NaN, the two zeros, the two infinities and the
 * finite non-zero values. Arrays and objects are acyclic; each carries an optional identity. Two
 * arrays or objects are the same reference exactly when both carry the same identity; one
 * without an identity is a reference that nothing else shares (such as an array just created).
 */
module JsValues {
  import opened Wrappers

  datatype Num = NaN | PosZero | NegZero | PosInf | NegInf | Finite(value: real)

  /** A number; a finite value is non-zero, the zeros have their own constructors. */
  type Number = n: Num | !n.Finite? || n.value != 0.0 witness PosZero

  datatype Property = Property(name: string, value: JsValue, enumerable: bool)

  datatype JsValue =
    | Undefined
    | Null
    | Bool(b: bool)
    | Number(n: Number)
    | BigInt(i: int)
    | Str(s: string)
    | Symbol(symbolId: nat)
    | Function(functionId: nat)
    | Array(ref: Option<nat>, elements: seq<JsValue>)
    | Object(ref: Option<nat>, properties: seq<Property>)

  /** The strings `typeof` can produce. */
  datatype TypeOfTag = TUndefined | TObject | TBoolean | TNumber | TBigInt | TString | TSymbol | TFunction

  function TypeOf(v: JsValue): TypeOfTag {
    match v
    case Undefined => TUndefined
    case Null => TObject
    case Bool(_) => TBoolean
    case Number(_) => TNumber
    case BigInt(_) => TBigInt
    case Str(_) => TString
    case Symbol(_) => TSymbol
    case Function(_) => TFunction
    case Array(_, _) => TObject
    case Object(_, _) => TObject
  }

  /** `a === b` on numbers: NaN equals nothing, +0 equals -0. */
  predicate NumStrictEq(a: Number, b: Number) {
    match (a, b)
    case (NaN, _) => false
    case (_, NaN) => false
    case (PosZero, _) => b.PosZero? || b.NegZero?
    case (NegZero, _) => b.PosZero? || b.NegZero?
    case _ => a == b
  }

  /** `Object.is(a, b)` on numbers: NaN is NaN, +0 is not -0. */
  predicate NumSameValue(a: Number, b: Number) {
    a == b
  }

  /** Two references are identical only when both carry the same identity. */
  predicate SameRef(a: Option<nat>, b: Option<nat>) {
    a.Some? && a == b
  }

  /** `a === b`. */
  predicate StrictEq(a: JsValue, b: JsValue) {
    match (a, b)
    case (Undefined, Undefined) => true
    case (Null, Null) => true
    case (Bool(x), Bool(y)) => x == y
    case (Number(x), Number(y)) => NumStrictEq(x, y)
    case (BigInt(x), BigInt(y)) => x == y
    case (Str(x), Str(y)) => x == y
    case (Symbol(x), Symbol(y)) => x == y
    case (Function(x), Function(y)) => x == y
    case (Array(r, _), Array(q, _)) => SameRef(r, q)
    case (Object(r, _), Object(q, _)) => SameRef(r, q)
    case _ => false
  }

  /** `Object.is(a, b)`. */
  predicate SameValue(a: JsValue, b: JsValue) {
    match (a, b)
    case (Number(x), Number(y)) => NumSameValue(x, y)
    case _ => StrictEq(a, b)
  }

  /** Whether `v` is truthy (`!!v`). */
  predicate Truthy(v: JsValue) {
    match v
    case Undefined => false
    case Null => false
    case Bool(b) => b
    case Number(n) => !(n.NaN? || n.PosZero? || n.NegZero?)
    case BigInt(i) => i != 0
    case Str(s) => s != ""
    case _ => true
  }

  /**
   * `v[name]` for a property name that is neither an array index nor a built-in property of
   * primitives, functions or arrays (the prototype chain holds none of the names read here):
   * the value of an object's own property of that name, and `undefined` otherwise.
   */
  function GetProp(v: JsValue, name: string): (r: JsValue)
    ensures !v.Object? ==> r == Undefined
  {
    match v
    case Object(_, props) => LookupProperty(props, name)
    case _ => Undefined
  }

  /** The value of the first property called `name`, or `undefined`. */
  function LookupProperty(props: seq<Property>, name: string): (r: JsValue)
    ensures (forall i :: 0 <= i < |props| ==> props[i].name != name) ==> r == Undefined
    ensures forall i :: 0 <= i < |props| ==>
      (props[i].name == name && (forall j :: 0 <= j < i ==> props[j].name != name)) ==> r == props[i].value
  {
    if props == [] then Undefined
    else if props[0].name == name then props[0].value
    else LookupProperty(props[1..], name)
  }

  lemma StrictEqSymmetric(a: JsValue, b: JsValue)
    ensures StrictEq(a, b) == StrictEq(b, a)
  {
  }

  /** `Object.is` and `===` disagree only on NaN and on the signed zeros. */
  lemma SameValueVersusStrictEq(a: JsValue, b: JsValue)
    ensures SameValue(a, b) != StrictEq(a, b) <==>
      (a == Number(NaN) && b == Number(NaN)) ||
      (a == Number(PosZero) && b == Number(NegZero)) ||
      (a == Number(NegZero) && b == Number(PosZero))
  {
  }
}
