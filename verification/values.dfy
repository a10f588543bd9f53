/**
 JavaScript values, as far as the client's inbound classifier inspects them.

 The transport delivers an arbitrary JavaScript value to the inbound
 subscription of src/utils/websocket.ts. The classifier only asks `typeof`,
 truthiness, `key in value` and `value.key`, so those four are modelled here
 and nothing else.
 */
module Values {

  /** A JavaScript value. Numbers are integers here; objects are their own keys. */
  datatype Value =
    | Undefined
    | Null
    | Bool(b: bool)
    | Num(n: int)
    | Str(s: string)
    | Arr(items: seq<Value>)
    | Obj(fields: map<string, Value>)

  /** JavaScript truthiness, as used by `v && …`. */
  predicate Truthy(v: Value) {
    match v
    case Undefined => false
    case Null => false
    case Bool(b) => b
    case Num(n) => n != 0
    case Str(s) => s != ""
    case Arr(_) => true
    case Obj(_) => true
  }

  /** The string JavaScript `typeof` yields (`null` is an "object"). */
  function TypeOf(v: Value): string {
    match v
    case Undefined => "undefined"
    case Null => "object"
    case Bool(_) => "boolean"
    case Num(_) => "number"
    case Str(_) => "string"
    case Arr(_) => "object"
    case Obj(_) => "object"
  }

  /** `key in v` for an object `v`. Arrays are given no properties: that is
      exact for the two keys the classifier asks about, `type` and `data`. */
  predicate HasProperty(v: Value, key: string) {
    v.Obj? && key in v.fields
  }

  /** `v[key]`, which is `undefined` when the property is absent. */
  function Property(v: Value, key: string): Value {
    if HasProperty(v, key) then v.fields[key] else Undefined
  }
}
