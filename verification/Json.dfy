// JSON documents with ordered object fields, as Python dicts and lists hold them.
module Json {

  datatype Option<+T> = None | Some(value: T)

  /** The value, or a default when there is none. */
  function Or<T>(o: Option<T>, default: T): T {
    if o.Some? then o.value else default
  }

  datatype Json =
    | Null
    | Bool(b: bool)
    | Int(i: int)
    | Float(r: real)
    | Str(s: string)
    | Arr(items: Items)
    | Obj(fields: Fields)

  datatype Items = NoItems | Item(head: Json, tail: Items)

  datatype Fields = NoFields | Field(key: string, value: Json, rest: Fields)

  /** `dict.get(key)`. */
  function Lookup(fields: Fields, key: string): Option<Json> {
    match fields
    case NoFields => None
    case Field(k, v, rest) => if k == key then Some(v) else Lookup(rest, key)
  }
}
