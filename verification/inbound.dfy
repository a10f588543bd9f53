/**
 Normalisation of one raw inbound delivery into the content of a `received`
 message, as done by the callback the client installs on the transport handle.
 */
module Inbound {
  import opened Values

  datatype Option<T> = None | Some(value: T)

  /** The transport's notice that the connection closed: an object whose
      `type` property is the string `Close`. */
  predicate IsCloseNotice(data: Value) {
    Truthy(data) && TypeOf(data) == "object" && HasProperty(data, "type")
      && Property(data, "type") == Str("Close")
  }

  /** The content of the `received` message for `data`, or `None` when the
      delivery is dropped. `serialize` stands for `JSON.stringify`. The body
      follows the source's tests; the contract says what they amount to for
      each shape of value. */
  function Classify(data: Value, serialize: Value -> string): (content: Option<Value>)
    ensures content.None? <==> data.Obj? && "type" in data.fields && data.fields["type"] == Str("Close")
    ensures data.Str? ==> content == Some(data)
    ensures data.Obj? && "data" in data.fields && content.Some? ==> content == Some(data.fields["data"])
    ensures data.Obj? && "data" !in data.fields && content.Some? ==> content == Some(Str(serialize(data)))
    ensures !data.Str? && !data.Obj? ==> content == Some(Str(serialize(data)))
  {
    if IsCloseNotice(data) then None
    else if TypeOf(data) == "string" then Some(data)
    else if Truthy(data) && TypeOf(data) == "object" && HasProperty(data, "data") then Some(Property(data, "data"))
    else Some(Str(serialize(data)))
  }
}
