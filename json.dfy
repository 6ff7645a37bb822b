/**
 * The values `JSON.parse` produces, with the two JavaScript operations the route
 * handler applies to them: truthiness (`!payload`) and a property read
 * (`payload?.questions`).
 */
module Json {
  import opened Wrappers

  /** A parsed JSON value. An object keeps its members in source order. */
  datatype Json =
    | Null
    | Bool(b: bool)
    | Number(n: real)
    | String(s: string)
    | Array(elements: seq<Json>)
    | Object(members: seq<(string, Json)>)

  /**
   * JavaScript truthiness. `false`, `0` (also `-0`) and `""` are falsy and so is
   * `null`; every array and every object is truthy, even an empty one. A
   * parsed JSON number is never NaN.
   */
  predicate Truthy(v: Json)
    ensures !Truthy(v) <==> v in {Null, Bool(false), Number(0.0), String("")}
  {
    match v
    case Null => false
    case Bool(b) => b
    case Number(n) => n != 0.0
    case String(s) => s != ""
    case Array(_) => true
    case Object(_) => true
  }

  /**
   * The value of `key` among `ms`, looking from the end: when a text repeats a
   * key, `JSON.parse` keeps the last value.
   */
  function Lookup(ms: seq<(string, Json)>, key: string): (r: Option<Json>)
    ensures r.None? <==> forall i :: 0 <= i < |ms| ==> ms[i].0 != key
    ensures r.Some? ==> exists i :: 0 <= i < |ms| && ms[i] == (key, r.value) &&
                                    forall j :: i < j < |ms| ==> ms[j].0 != key
    decreases |ms|
  {
    if |ms| == 0 then None
    else if ms[|ms| - 1].0 == key then Some(ms[|ms| - 1].1)
    else Lookup(ms[..|ms| - 1], key)
  }

  /**
   * `v?.key`: the member's value on an object, `undefined` (None) on `null`, on
   * a primitive and on an array (none of them has an own `questions` property,
   * and neither do their prototypes).
   */
  function Get(v: Json, key: string): (r: Option<Json>)
    ensures r.Some? ==> v.Object? && exists i :: 0 <= i < |v.members| && v.members[i] == (key, r.value)
    ensures !v.Object? ==> r.None?
    ensures v.Object? ==> r == Lookup(v.members, key)
  {
    match v
    case Object(ms) => Lookup(ms, key)
    case _ => None
  }

  /** `Array.isArray(x)`, where `undefined` is not an array. */
  predicate IsArray(x: Option<Json>)
    ensures x == None ==> !IsArray(x)
    ensures IsArray(x) ==> x.Some? && x.value.Array? && Truthy(x.value)
    ensures x.Some? && x.value.Array? ==> IsArray(x)
  {
    x.Some? && x.value.Array?
  }
}
