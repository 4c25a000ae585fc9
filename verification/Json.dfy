/** Parsed JSON values as the parsers and formatters see them. */
module JsonValues {
  /** An object is its key-value list, in order; keys are distinct in practice. */
  datatype Json =
    | Null
    | Bool(b: bool)
    | Int(i: int)
    | Float(x: real)
    | Str(s: string)
    | Arr(items: seq<Json>)
    | Obj(fields: seq<Field>)

  datatype Field = Field(key: string, value: Json)
}
