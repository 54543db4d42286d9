/** JSON values as `JSON.parse` returns them; an object keeps its entries in order. */
module Json {

  datatype Json =
    | Null
    | Bool(flag: bool)
    | Number(amount: real)
    | Str(text: string)
    | Arr(items: seq<Json>)
    | Obj(fields: seq<Field>)

  datatype Field = Field(key: string, value: Json)

  /** The one key that cannot be copied by assignment: `next["__proto__"] = v` sets the prototype instead. */
  const PROTO := "__proto__"
}
