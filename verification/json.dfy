/**
 This module defines the values Python's `json` module hands back, and the
 two pieces of Python semantics the crawler applies to them: truthiness
 (`if not action_obj`) and `dict.get` with a default.
 */
module Json {
  import opened Wrappers

  /** A decoded JSON value: None, bool, number, str, list or dict. */
  datatype Json =
    | Null
    | Bool(b: bool)
    | Num(n: real)
    | Str(s: string)
    | Arr(items: seq<Json>)
    | Obj(fields: map<string, Json>)

  /** `json.loads`, kept abstract: it either fails (JSONDecodeError) or yields a value. */
  type Decoder = string -> Option<Json>

  /** The `{}` the action analysers return when they have nothing. */
  const EmptyObject: Json := Obj(map[])

  /** The `[]` the update extractor returns when it has nothing. */
  const EmptyArray: Json := Arr([])

  /** Python's `bool(v)`: None, False, zero and empty containers are falsy. */
  predicate Truthy(v: Json)
    ensures v == Null || v == Bool(false) || v == Str("") || v == EmptyArray || v == EmptyObject ==> !Truthy(v)
    ensures v.Obj? && v.fields.Keys != {} ==> Truthy(v)
  {
    match v
    case Null => false
    case Bool(b) => b
    case Num(n) => n != 0.0
    case Str(s) => |s| > 0
    case Arr(items) => |items| > 0
    case Obj(fields) => |fields| > 0
  }

  /** Python's `d.get(key, default)`. */
  function Lookup(fields: map<string, Json>, key: string, default: Json): (r: Json)
    ensures r == default || r in fields.Values
    ensures key in fields ==> r == fields[key]
    ensures key !in fields ==> r == default
  {
    if key in fields then fields[key] else default
  }
}
