/** Option and Result types used by the codec. */
module Results {

  datatype Option<+T> = None | Some(value: T) {

    /** Turns an absent value into the given error. */
    function OkOr<E>(error: E): Result<T, E> {
      match this
      case Some(v) => Ok(v)
      case None => Err(error)
    }
  }

  datatype Result<+T, +E> = Ok(value: T) | Err(error: E)

  /** Collapses a doubly-optional value: absent and present-but-empty meet. */
  function Flatten<T>(o: Option<Option<T>>): (r: Option<T>)
    ensures r.Some? <==> o.Some? && o.value.Some?
    ensures r.Some? ==> r.value == o.value.value
  {
    match o
    case None => None
    case Some(inner) => inner
  }
}
