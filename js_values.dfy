/**
 * The part of the JavaScript value universe that the sanitizer and the reply
 * handlers inspect: `typeof` tests, truthiness, property reads, `Number()`
 * coercion and thrown values.
 */
module JsValues {
  import opened Wrappers

  /** A JavaScript number: a finite value, NaN, or one of the two infinities. */
  datatype Num = Finite(value: real) | NaN | Infinity(positive: bool)

  /**
   * A JavaScript value. Objects are plain (own enumerable properties only);
   * a function value is represented by the string it returns when called
   * without arguments.
   */
  datatype JsValue =
    | Undefined
    | Null
    | Bool(b: bool)
    | Number(n: Num)
    | Str(s: string)
    | Arr(items: seq<JsValue>)
    | Obj(props: map<string, JsValue>)
    | Func(result: string)

  /** `typeof v === "object" && v !== null` */
  predicate IsObject(v: JsValue) {
    v.Arr? || v.Obj?
  }

  /** `v === null || v === undefined` */
  predicate IsNullish(v: JsValue) {
    v.Undefined? || v.Null?
  }

  /** JavaScript truthiness (`!!v`). */
  predicate Truthy(v: JsValue) {
    match v
    case Undefined => false
    case Null => false
    case Bool(b) => b
    case Number(n) => n.Infinity? || (n.Finite? && n.value != 0.0)
    case Str(s) => s != ""
    case Arr(_) => true
    case Obj(_) => true
    case Func(_) => true
  }

  /**
   * `v[key]` on a non-nullish value: the own property of a plain object,
   * `undefined` for everything else. (Reading a property of `null` or
   * `undefined` throws; callers test `IsNullish` first.)
   */
  function Get(v: JsValue, key: string): (r: JsValue)
    ensures v.Obj? && key in v.props ==> r == v.props[key]
    ensures !(v.Obj? && key in v.props) ==> r == Undefined
  {
    if v.Obj? && key in v.props then v.props[key] else Undefined
  }

  /** `v ?? fallback` */
  function OrElse(v: JsValue, fallback: JsValue): (r: JsValue)
    ensures IsNullish(v) ==> r == fallback
    ensures !IsNullish(v) ==> r == v
  {
    if IsNullish(v) then fallback else v
  }

  /**
   * `Number(v)`. Numbers, booleans, `null` and `undefined` convert as the
   * language defines; strings, arrays, objects and functions go through the
   * string-parsing and `toString` machinery, which is taken as the oracle
   * `coerce`.
   */
  function ToNumber(v: JsValue, coerce: JsValue -> Num): (r: Num)
    ensures v.Number? ==> r == v.n
    ensures v.Undefined? ==> r == NaN
    ensures v.Null? ==> r == Finite(0.0)
    ensures v.Bool? ==> r == Finite(if v.b then 1.0 else 0.0)
  {
    match v
    case Number(n) => n
    case Undefined => NaN
    case Null => Finite(0.0)
    case Bool(b) => Finite(if b then 1.0 else 0.0)
    case _ => coerce(v)
  }

  /** A thrown value: an `Error` instance with its message, or anything else. */
  datatype Thrown = ErrorObject(message: string) | NonError

  /** `err instanceof Error ? err.message : fallback` */
  function MessageOr(e: Thrown, fallback: string): (m: string)
    ensures e.ErrorObject? ==> m == e.message
    ensures e.NonError? ==> m == fallback
  {
    match e
    case ErrorObject(message) => message
    case NonError => fallback
  }

  /**
   * An optional string that is present and not empty: what `!!v` tests of
   * an environment variable or an optional string parameter.
   */
  predicate Given(v: Option<string>) {
    v.Some? && v.value != ""
  }

  /** `v || fallback` for an optional string (`process.env.NAME || fallback`, `prompt || fallback`). */
  function GivenOr(v: Option<string>, fallback: string): (r: string)
    ensures Given(v) ==> r == v.value
    ensures !Given(v) ==> r == fallback
  {
    if Given(v) then v.value else fallback
  }
}
