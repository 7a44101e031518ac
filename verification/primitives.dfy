/** JSON forms of the scalar field types: strings, booleans, optional
    strings, u32 as a plain number and u64 as a decimal string. */
module Primitives {
  import opened Results
  import opened Json
  import opened Decimal

  function EncodeU64(n: u64): Json {
    JStr(ToDecimal(n))
  }

  /** A u64 is read only from a JSON string of decimal digits whose value
      fits in 64 bits; a JSON number is the wrong type. */
  function DecodeU64(j: Json): (r: Result<u64, DecodeError>)
    ensures r.Ok? <==> j.JStr? && ParseDecimal(j.s).Some? && ParseDecimal(j.s).value < U64_LIMIT
    ensures r.Ok? ==> ParseDecimal(j.s) == Some(r.value as nat)
    ensures !j.JStr? ==> r == Err(WrongType)
  {
    match j
    case JStr(s) =>
      (match ParseDecimal(s)
       case Some(n) => if n < U64_LIMIT then Ok(n as u64) else Err(InvalidValue)
       case None => Err(InvalidValue))
    case _ => Err(WrongType)
  }

  lemma U64RoundTrip(n: u64)
    ensures DecodeU64(EncodeU64(n)) == Ok(n)
  {
    ParseToDecimal(n);
  }

  function EncodeU32(n: u32): Json {
    JNum(n)
  }

  /** A u32 is read only from a JSON number below 2^32. An integer that
      still fits in 64 bits is an out-of-range value; a larger one is held
      by the JSON reader as a float, which a u32 does not accept at all. */
  function DecodeU32(j: Json): (r: Result<u32, DecodeError>)
    ensures r.Ok? <==> j.JNum? && j.n < U32_LIMIT
    ensures r.Ok? ==> r.value as nat == j.n
    ensures j.JNum? && U32_LIMIT <= j.n < U64_LIMIT ==> r == Err(InvalidValue)
    ensures j.JNum? && U64_LIMIT <= j.n ==> r == Err(WrongType)
    ensures !j.JNum? ==> r == Err(WrongType)
  {
    match j
    case JNum(n) =>
      if n < U32_LIMIT then Ok(n as u32)
      else if n < U64_LIMIT then Err(InvalidValue)
      else Err(WrongType)
    case _ => Err(WrongType)
  }

  function DecodeString(j: Json): (r: Result<string, DecodeError>)
    ensures r.Ok? <==> j.JStr?
    ensures r.Ok? ==> j == JStr(r.value)
    ensures r.Err? ==> r.error == WrongType
  {
    match j
    case JStr(s) => Ok(s)
    case _ => Err(WrongType)
  }

  function DecodeBool(j: Json): (r: Result<bool, DecodeError>)
    ensures r.Ok? <==> j.JBool?
    ensures r.Ok? ==> j == JBool(r.value)
    ensures r.Err? ==> r.error == WrongType
  {
    match j
    case JBool(b) => Ok(b)
    case _ => Err(WrongType)
  }

  /** An absent optional string is written as JSON null. */
  function EncodeOptString(o: Option<string>): Json {
    match o
    case None => JNull
    case Some(s) => JStr(s)
  }

  function DecodeOptString(j: Json): (r: Result<Option<string>, DecodeError>)
    ensures r.Ok? <==> j.JNull? || j.JStr?
    ensures r.Ok? ==> EncodeOptString(r.value) == j
  {
    match j
    case JNull => Ok(None)
    case JStr(s) => Ok(Some(s))
    case _ => Err(WrongType)
  }

  lemma U32RoundTrip(n: u32)
    ensures DecodeU32(EncodeU32(n)) == Ok(n)
  {
  }

  lemma OptStringRoundTrip(o: Option<string>)
    ensures DecodeOptString(EncodeOptString(o)) == Ok(o)
  {
  }
}
