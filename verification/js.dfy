/** JavaScript values as the front end reads them from responses and errors, and
    the three operators its message code relies on: truthiness (`if (x)`, `||`),
    nullish coalescing (`??`) and optional property reads (`?.`). */
module Js {

  /** A JSON value as the backend returns it. Objects are maps: the order of keys
      in a request or response body carries no meaning. */
  datatype Json =
    | JNull
    | JBool(b: bool)
    | JNum(n: int)
    | JStr(s: string)
    | JArr(items: seq<Json>)
    | JObj(fields: map<string, Json>)

  /** A JavaScript value: `undefined`, or a value that has a JSON form. */
  datatype Value = Undefined | Def(json: Json)

  /** Outcome of a plain property read `v.key`: a value, or the TypeError thrown
      when `v` is `null` or `undefined`. */
  datatype Read = Got(value: Value) | TypeError

  function Str(s: string): Value {
    Def(JStr(s))
  }

  function Obj(fields: map<string, Json>): Value {
    Def(JObj(fields))
  }

  /** `null` or `undefined`: the only values `??` and `?.` treat as missing. */
  predicate Nullish(v: Value) {
    v == Undefined || v == Def(JNull)
  }

  /** JavaScript truthiness. Numbers are integers here, so `NaN` does not arise. */
  predicate Truthy(v: Value) {
    match v
    case Undefined => false
    case Def(j) =>
      match j
      case JNull => false
      case JBool(b) => b
      case JNum(n) => n != 0
      case JStr(s) => s != ""
      case JArr(_) => true
      case JObj(_) => true
  }

  /** `v ?? fallback`. */
  function Coalesce(v: Value, fallback: Value): (r: Value)
    ensures !Nullish(v) ==> r == v
    ensures Nullish(v) ==> r == fallback
    ensures !Nullish(fallback) ==> !Nullish(r)
  {
    if Nullish(v) then fallback else v
  }

  /** `v || fallback`. */
  function Or(v: Value, fallback: Value): (r: Value)
    ensures Truthy(v) ==> r == v
    ensures !Truthy(v) ==> r == fallback
    ensures Truthy(fallback) ==> Truthy(r)
  {
    if Truthy(v) then v else fallback
  }

  /** `v?.key`: `undefined` when `v` is nullish or has no such own property.
      Inherited properties (`length`, prototype members) are not modelled; the
      keys read by this front end (`data`, `detail`, `message`) are never inherited
      by the plain objects it receives. */
  function OptGet(v: Value, key: string): (r: Value)
    ensures Nullish(v) ==> r == Undefined
    ensures v.Def? && v.json.JObj? && key in v.json.fields ==> r == Def(v.json.fields[key])
    ensures r != Undefined ==> v.Def? && v.json.JObj? && key in v.json.fields
  {
    match v
    case Undefined => Undefined
    case Def(j) =>
      if j.JObj? && key in j.fields then Def(j.fields[key]) else Undefined
  }

  /** `v.key`: like `v?.key` except that it throws on a nullish `v`. */
  function Get(v: Value, key: string): (r: Read)
    ensures r == TypeError <==> Nullish(v)
    ensures r.Got? ==> r.value == OptGet(v, key)
  {
    if Nullish(v) then TypeError else Got(OptGet(v, key))
  }

  /** `??` and `||` give different answers exactly when the left operand is
      falsy but not nullish (`""`, `0`, `false`) and differs from the fallback:
      the one case where an empty `detail` string is shown as is by `??` and
      skipped by `||`. */
  lemma CoalesceOrDiffer(v: Value, fallback: Value)
    ensures Coalesce(v, fallback) != Or(v, fallback)
        <==> (!Truthy(v) && !Nullish(v) && v != fallback)
  {
  }

  /** Every nullish value is falsy, so `||` falls through whenever `??` does. */
  lemma NullishIsFalsy(v: Value)
    ensures Nullish(v) ==> !Truthy(v)
  {
  }

  /** Reading a key of an object literal gives back the value stored there. */
  lemma OptGetLiteral(key: string, x: Json)
    ensures OptGet(Obj(map[key := x]), key) == Def(x)
    ensures Get(Obj(map[key := x]), key) == Got(Def(x))
  {
  }
}
