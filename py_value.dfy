/**
 * The Python values a decoded JSON document becomes, and the few built-in
 * behaviours the verification script relies on: truthiness, `dict.get`,
 * which values take part in arithmetic, `%d`-style formatting, hashing and
 * ordering, and calls that raise instead of returning.
 */
module PyValue {

  /** `json.loads` output: None, bool, int, float, str, list, dict. */
  datatype Json =
    | JNull
    | JBool(b: bool)
    | JInt(i: int)
    | JFloat(f: real)
    | JStr(s: string)
    | JArray(items: seq<Json>)
    | JObject(fields: map<string, Json>)

  /** A Python call either returns a value or raises. */
  datatype Py<T> = Returns(value: T) | Raises

  /** `bool(v)`. */
  predicate Truthy(v: Json)
  {
    match v
    case JNull => false
    case JBool(b) => b
    case JInt(i) => i != 0
    case JFloat(f) => f != 0.0
    case JStr(s) => s != ""
    case JArray(items) => items != []
    case JObject(fields) => fields != map[]
  }

  /** `d.get(key, default)`. */
  function Get(d: map<string, Json>, key: string, default: Json): Json
  {
    if key in d then d[key] else default
  }

  /** `v.get(key, default)` on any value: only a dict has `get`. */
  function AttrGet(v: Json, key: string, default: Json): Py<Json>
  {
    if v.JObject? then Returns(Get(v.fields, key, default)) else Raises
  }

  /** Values that `*`, `max` and the float formats treat as numbers (a bool counts as 0 or 1). */
  predicate IsNumber(v: Json) { v.JBool? || v.JInt? || v.JFloat? }

  /** Values the `d` format accepts (`bool` is a subclass of `int`). */
  predicate IsIntegral(v: Json) { v.JBool? || v.JInt? }

  function NumValue(v: Json): real
    requires IsNumber(v)
  {
    match v
    case JBool(b) => if b then 1.0 else 0.0
    case JInt(i) => i as real
    case JFloat(f) => f
  }

  /** Values a `set` accepts: lists and dicts are unhashable. */
  predicate Hashable(v: Json) { !v.JArray? && !v.JObject? }

  /** Values `[:n]` slices (a missing key defaults to a string). */
  predicate Sliceable(v: Json) { v.JStr? || v.JArray? }

  /**
   * Pairs `>` orders without raising, taken as two numbers or two strings;
   * every other pair the script could meet raises `TypeError`.
   */
  predicate Orderable(a: Json, b: Json)
  {
    (IsNumber(a) && IsNumber(b)) || (a.JStr? && b.JStr?)
  }

  /** `max(a, b)` on numbers. */
  function MaxReal(a: real, b: real): (m: real)
    ensures m >= a && m >= b && (m == a || m == b)
  {
    if b > a then b else a
  }
}
