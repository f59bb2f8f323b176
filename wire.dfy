/**
 The values that travel over a relay connection.

 Inbound frames are decoded into a dynamically-shaped record (a string-keyed
 map of JSON values); outbound frames always have the two-field shape
 `{"event": ..., "data": ...}`. Payload values such as `rtcMessage` or a
 ping's `data` are opaque to the relay: it only copies them.
 */
module Wire {

  /** A connection handle; only its identity matters to the relay. */
  type Conn = nat

  /** The caller-supplied identity a connection claims; used as a routing key. */
  type Identity = string

  /** A decoded JSON value. */
  datatype Json =
    | Null
    | Bool(b: bool)
    | Num(n: int)
    | Str(s: string)
    | Arr(items: seq<Json>)
    | Obj(fields: map<string, Json>)

  /** An inbound frame, decoded as a keyed record. */
  type Message = map<string, Json>

  /** Reading a key of a record: a missing key reads as null. */
  function Field(m: map<string, Json>, key: string): Json
  {
    if key in m then m[key] else Null
  }

  /** A checked string view of a field: `None` when the field is absent or not a string. */
  function StringField(m: map<string, Json>, key: string): Option<string>
  {
    match Field(m, key)
    case Str(s) => Some(s)
    case _ => None
  }

  /** The `event` tag of a frame, when it is present and is a string. */
  function EventOf(m: Message): Option<string>
  {
    StringField(m, "event")
  }

  /** An outbound frame `{"event": event, "data": data}`. */
  datatype Frame = Frame(event: string, data: Json)

  /** One frame written successfully to one connection. */
  datatype Write = Write(conn: Conn, frame: Frame)

  datatype Option<+T> = None | Some(value: T)
}
