/** Data shared by every part of the model. */
module Values {

  datatype Option<+T> = None | Some(value: T)

  /** The contents of a `cci_value`, without its RapidJSON storage. `Int` and
      `Real` are the two kinds of JSON number. */
  datatype Value =
    | Null
    | Bool(b: bool)
    | Int(i: int)
    | Real(r: real)
    | Str(s: string)
    | List(items: seq<Value>)
    | Map(entries: map<string, Value>)

  /** The identity of a `cci_originator`: what its `operator==` compares. */
  type Origin = string

  /** `CCI_UNKNOWN_ORIGINATOR_STRING_`. */
  const UNKNOWN_ORIGIN: Origin := "UNKNOWN_ORIGINATOR"
}
