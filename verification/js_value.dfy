/** The JavaScript values that reach the workflow from the host's
    configuration and from the export response. */
module JsValue {

  /** A JavaScript value. Numbers are modelled as integers: the workflow only
      forwards them. An object is its map of own properties. */
  datatype Value =
    | Undefined
    | Null
    | Bool(b: bool)
    | Num(n: int)
    | Str(s: string)
    | Obj(props: map<string, Value>)

  /** The keys the `in` operator finds on `v`; the operator throws a
      TypeError on anything that is not an object. */
  function Keys(v: Value): set<string>
    requires v.Obj?
  {
    v.props.Keys
  }

  /** Property access `v[key]`: `undefined` when the object lacks the key. */
  function Get(v: Value, key: string): Value
    requires v.Obj?
  {
    if key in v.props then v.props[key] else Undefined
  }
}
