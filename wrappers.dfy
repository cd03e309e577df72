/** Option and Result, the two outcome shapes the authentication helpers use. */
module Wrappers {

  /** A value that may be missing (JavaScript `undefined` / `null`). */
  datatype Option<+T> = None | Some(value: T)

  /** The outcome of an awaited promise: resolved with a value or rejected with an error. */
  datatype Result<+R, +E> = Success(value: R) | Failure(error: E) {

    /** Forgets the error, as an empty `catch` does. */
    function ToOption(): (o: Option<R>)
      ensures o.Some? <==> Success?
      ensures Success? ==> o.value == value
    {
      match this
      case Success(v) => Some(v)
      case Failure(_) => None
    }
  }
}
