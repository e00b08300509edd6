/**
 The values `json.loads` produces, and the Python dict and list operations
 the receipt code applies to them: subscript, `get` with a default, key
 assignment, and `for ... in` over the value stored under `"items"`.
 JSON numbers (ints and floats alike) are carried as `real`; the model only
 copies them.
 */
module Json {
  import opened Py

  datatype Value =
    | Null
    | Bool(b: bool)
    | Num(n: real)
    | Str(s: string)
    | Arr(elems: seq<Value>)
    | Obj(fields: map<string, Value>)

  /** `v[key]` with a string key: a dict lookup, `KeyError` for a missing
      key; every other kind of value refuses a string subscript. */
  function Subscript(v: Value, key: string): (r: Result<Value>)
    ensures r.Ok? <==> v.Obj? && key in v.fields
    ensures r.Ok? ==> r.value == v.fields[key]
    ensures v.Obj? && key !in v.fields ==> r == Err(KeyError(key))
    ensures !v.Obj? ==> r == Err(TypeError)
  {
    match v
    case Obj(m) => if key in m then Ok(m[key]) else Err(KeyError(key))
    case _ => Err(TypeError)
  }

  /** `d.get(key, default)` */
  function Get(m: map<string, Value>, key: string, default: Value): Value {
    if key in m then m[key] else default
  }

  /** `v[key] = x`: a dict gains or replaces that key and keeps the others;
      every other kind of value refuses item assignment. */
  function SetKey(v: Value, key: string, x: Value): (r: Result<Value>)
    ensures r.Ok? <==> v.Obj?
    ensures !v.Obj? ==> r == Err(TypeError)
    ensures r.Ok? ==> r.value.Obj? && r.value.fields.Keys == v.fields.Keys + {key}
    ensures r.Ok? ==> r.value.fields[key] == x
    ensures r.Ok? ==> forall k :: k in v.fields && k != key ==> r.value.fields[k] == v.fields[k]
  {
    match v
    case Obj(m) => Ok(Obj(m[key := x]))
    case _ => Err(TypeError)
  }

  /** The elements `for item in v` visits, as far as the receipt code can
      tell them apart. A list yields its elements. An empty string or dict
      yields nothing. A non-empty string or dict yields strings, and both
      callers subscript the first one with a string key, which raises
      `TypeError`; that error is reported here. Numbers, booleans and `None`
      are not iterable. */
  function IterItems(v: Value): (r: Result<seq<Value>>)
    ensures r.Ok? <==> v.Arr? || (v.Str? && |v.s| == 0) || (v.Obj? && |v.fields| == 0)
    ensures r.Ok? ==> (v.Arr? && r.value == v.elems) || r.value == []
    ensures v.Arr? ==> r == Ok(v.elems)
    ensures v.Null? || v.Bool? || v.Num? ==> r == Err(TypeError)
    ensures (v.Str? && |v.s| == 0) || (v.Obj? && |v.fields| == 0) ==> r == Ok([])
    ensures (v.Str? && |v.s| > 0) || (v.Obj? && |v.fields| > 0) ==> r == Err(TypeError)
    ensures r.Err? ==> r.error == TypeError
  {
    match v
    case Arr(xs) => Ok(xs)
    case Str(s) => if |s| == 0 then Ok([]) else Err(TypeError)
    case Obj(m) => if |m| == 0 then Ok([]) else Err(TypeError)
    case _ => Err(TypeError)
  }
}
