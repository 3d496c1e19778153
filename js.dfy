/**
 * The JavaScript values that reach the handlers through request bodies and
 * untyped document paths, with the two JavaScript operations the handlers
 * rely on, truthiness (`if (v)`, `v || w`) and strict equality (`===`), and
 * the cast Mongoose applies when such a value is assigned to a Number path.
 * Numbers are exact reals: NaN, the infinities and -0 are not modelled.
 */
module Js {
  import opened Wrappers

  /** An object or array is represented by the identity of its reference. */
  datatype JsValue =
    | Undefined
    | Null
    | Bool(b: bool)
    | Num(n: real)
    | Str(s: string)
    | Ref(ref: nat)

  /** ToBoolean: false, 0, "", null and undefined are falsy; every object is truthy. */
  predicate Truthy(v: JsValue) {
    match v
    case Undefined => false
    case Null => false
    case Bool(b) => b
    case Num(n) => n != 0.0
    case Str(s) => s != ""
    case Ref(_) => true
  }

  /** `a === b`: both operands must have the same type; objects compare by reference. */
  predicate StrictEquals(a: JsValue, b: JsValue) {
    match (a, b)
    case (Undefined, Undefined) => true
    case (Null, Null) => true
    case (Bool(x), Bool(y)) => x == y
    case (Num(x), Num(y)) => x == y
    case (Str(x), Str(y)) => x == y
    case (Ref(x), Ref(y)) => x == y
    case _ => false
  }

  /** `a || b` */
  function Or(a: JsValue, b: JsValue): JsValue {
    if Truthy(a) then a else b
  }

  /** An optional string field of a request body: absent is `undefined`. */
  function OfString(o: Option<string>): JsValue {
    match o
    case None => Undefined
    case Some(s) => Str(s)
  }

  /** A non-empty run of decimal digits. */
  predicate IsDigits(s: string) {
    |s| > 0 && forall i :: 0 <= i < |s| ==> '0' <= s[i] <= '9'
  }

  /** The value of a run of decimal digits, read most significant first. */
  function DigitsValue(s: string): nat
    requires forall i :: 0 <= i < |s| ==> '0' <= s[i] <= '9'
  {
    if s == [] then 0
    else DigitsValue(s[..|s| - 1]) * 10 + (s[|s| - 1] as int - '0' as int)
  }

  /**
   * Mongoose's cast of a value assigned to a Number path: a number is kept,
   * a boolean becomes 1 or 0, a string of decimal digits becomes its value;
   * any other value fails the cast (None).
   */
  function NumberCast(v: JsValue): (r: Option<real>)
    ensures v.Num? ==> r == Some(v.n)
    ensures r.Some? && !v.Num? ==> r.value >= 0.0
    ensures v.Undefined? || v.Null? || v.Ref? ==> r == None
  {
    match v
    case Num(n) => Some(n)
    case Bool(b) => Some(if b then 1.0 else 0.0)
    case Str(s) => if IsDigits(s) then Some(DigitsValue(s) as real) else None
    case _ => None
  }

  /** `===` never converts: a string is never strictly equal to a number. */
  lemma StrictEqualsNeverCoerces(s: string, n: real)
    ensures !StrictEquals(Str(s), Num(n)) && !StrictEquals(Num(n), Str(s))
  {
  }
}
