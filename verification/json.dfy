/** A JSON document as an abstract syntax tree. Objects are sequences of
    key/value pairs, so repeated keys and key order can both be expressed. */
module Json {

  datatype Json =
    | JNull
    | JBool(b: bool)
    | JNum(n: nat)
    | JStr(s: string)
    | JArr(items: seq<Json>)
    | JObj(fields: seq<(string, Json)>)

  type Fields = seq<(string, Json)>

  /** Why a JSON value could not be read as a typed value. Only the kind of
      failure and the field or variant name are kept, not message text. */
  datatype DecodeError =
    | MissingField(name: string)
    | DuplicateField(name: string)
    | UnknownField(name: string)
    | UnknownVariant(name: string)
    | WrongType
    | InvalidValue

  /** The keys of an object, in wire order. */
  function Keys(fields: Fields): (ks: seq<string>)
    ensures |ks| == |fields|
    ensures forall i :: 0 <= i < |fields| ==> ks[i] == fields[i].0
  {
    if fields == [] then [] else [fields[0].0] + Keys(fields[1..])
  }
}
