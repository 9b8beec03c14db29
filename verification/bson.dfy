/** The document values the MongoDB driver exchanges with the repository:
    bson.M (unordered map), bson.D (ordered list of elements), bson.A (array)
    and the scalar values the core builds or passes through. */
module Bson {

  datatype Value =
    | Null
    | Bool(b: bool)
    | Int(i: int)
    | Str(s: string)
    | Arr(items: seq<Value>)           // bson.A, or a Go slice
    | M(entries: map<string, Value>)   // bson.M
    | D(elems: seq<Elem>)              // bson.D

  /** bson.E: one key/value element of an ordered document. */
  datatype Elem = E(key: string, value: Value)

}
