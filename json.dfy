/**
 * The slice of jsoncpp the client relies on: a JSON value, the reader and
 * writer (left uninterpreted and passed in as `JsonLib`) and the accessors
 * `isMember`, `operator[]`, `asString`, `asInt`, `isString` and indexed
 * iteration, with the exceptions jsoncpp 1.x raises when a value has the
 * wrong type.
 */
module Json {
  import opened Wrappers
  import opened Errors
  import Decimal

  /** A JSON value. Numbers are integers; objects are keyed by member name. */
  datatype Json =
    | JNull
    | JBool(b: bool)
    | JInt(i: int)
    | JString(s: string)
    | JArray(items: seq<Json>)
    | JObject(members: map<string, Json>)

  /** What `Json::Reader::parse(text, root)` reports: its success flag and the root it built. */
  datatype ReadOutcome = ReadOutcome(ok: bool, root: Json)

  /** The reader and the `FastWriter` of the JSON library, neither of which this model defines. */
  datatype JsonLib = JsonLib(read: string -> ReadOutcome, write: Json -> string)

  const Int32Min: int := -0x8000_0000
  const Int32Max: int := 0x7fff_ffff

  /** `v.isMember(key)`: only an object or null may be asked; anything else raises a logic error. */
  function IsMember(v: Json, key: string): Result<bool, Failure> {
    match v
    case JObject(m) => Success(key in m)
    case JNull => Success(false)
    case _ => Failure(Library("in Json::Value::find(begin, end): requires objectValue or nullValue"))
  }

  /** `v[key]` on a value known to be an object or null: the member, or null when it is absent. */
  function Get(v: Json, key: string): Json {
    if v.JObject? && key in v.members then v.members[key] else JNull
  }

  function IsString(v: Json): bool {
    v.JString?
  }

  /** `v.asString()`. */
  function AsString(v: Json): Result<string, Failure> {
    match v
    case JNull => Success("")
    case JString(s) => Success(s)
    case JBool(b) => Success(if b then "true" else "false")
    case JInt(i) => Success(Decimal.IntToString(i))
    case _ => Failure(Library("Type is not convertible to string"))
  }

  /** `v.asInt()`: a 32-bit integer. */
  function AsInt(v: Json): Result<int, Failure> {
    match v
    case JNull => Success(0)
    case JBool(b) => Success(if b then 1 else 0)
    case JInt(i) =>
      if Int32Min <= i <= Int32Max then Success(i)
      else Failure(Library("LargestInt out of Int range"))
    case _ => Failure(Library("Value is not convertible to Int."))
  }

  /**
   * The elements visited by `for (i = 0; i < v.size(); i++) v[i]`: an array's
   * items; nothing for null or a scalar (size 0); a non-empty object has a
   * size but refuses to be indexed by number.
   */
  function Elements(v: Json): Result<seq<Json>, Failure> {
    match v
    case JArray(items) => Success(items)
    case JObject(m) =>
      if |m| == 0 then Success([])
      else Failure(Library("in Json::Value::operator[](ArrayIndex)const: requires arrayValue"))
    case _ => Success([])
  }
}
