/** The data that flows through the bridge: metadata events and image bytes. */
module Messages {

  /** One byte of an image blob. */
  newtype byte = b: int | 0 <= b < 256

  /** A JSON-typed value as carried by a message-bus event (Go `interface{}`).
      Numbers are kept as integers: the model never computes on them. */
  datatype Value =
    | Null
    | Bool(b: bool)
    | Num(n: int)
    | Str(s: string)
    | Arr(items: seq<Value>)
    | Obj(fields: map<string, Value>)

  /** The payload of one event (Go `map[string]interface{}`). */
  type Metadata = map<string, Value>
}
