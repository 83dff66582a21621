/**
 * Structured values: the compressed data `SchemaValue` and the JSON values the
 * database stores. Both are modelled by one datatype; converting between them
 * (`.into()`) is the identity in this model.
 */
module Values {
  import opened Wrappers

  datatype Value =
    | Null
    | Bool(b: bool)
    | Number(n: int)
    | Str(s: string)
    | Array(items: seq<Value>)
    | Object(fields: map<string, Value>)
    | Enum(kind: string, params: Value)

  /** `value.get(key)` on an object; `None` for a missing key or a non-object. */
  function Get(v: Value, key: string): (r: Option<Value>)
    ensures r.Some? <==> v.Object? && key in v.fields
    ensures r.Some? ==> r.value == v.fields[key]
  {
    if v.Object? && key in v.fields then Some(v.fields[key]) else None
  }

  /** `as_u64()`: a number in the `u64` range. */
  function AsU64(v: Value): (r: Option<nat>)
    ensures r.Some? <==> v.Number? && 0 <= v.n < 0x1_0000_0000_0000_0000
    ensures r.Some? ==> r.value == v.n
  {
    if v.Number? && 0 <= v.n < 0x1_0000_0000_0000_0000 then Some(v.n) else None
  }

  /** `as_bool()`. */
  function AsBool(v: Value): (r: Option<bool>)
    ensures r.Some? <==> v.Bool?
    ensures r.Some? ==> r.value == v.b
  {
    if v.Bool? then Some(v.b) else None
  }

  /**
   * The `params` of a stored enum value, the JSON path `->'params'`: the
   * params of an `Enum`, or the `params` member of an object.
   */
  function Params(v: Value): (r: Option<Value>)
    ensures v.Enum? ==> r == Some(v.params)
    ensures v.Object? ==> r == Get(v, "params")
    ensures !v.Enum? && !v.Object? ==> r == None
  {
    match v
    case Enum(_, p) => Some(p)
    case Object(m) => if "params" in m then Some(m["params"]) else None
    case _ => None
  }
}
