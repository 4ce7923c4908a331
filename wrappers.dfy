/** Option and Result: the absent values and thrown errors of the front end. */
module Wrappers {

  /** A value that may be missing (`null`/`undefined` in the front end). */
  datatype Option<+T> = None | Some(value: T)
  {
    function GetOr(default: T): T
    {
      match this
      case Some(v) => v
      case None => default
    }

    /** The value, or `error` thrown when it is missing: what a context hook
        returns inside its provider and throws outside one. */
    function ToResult<E>(error: E): (r: Result<T, E>)
      ensures r.Success? <==> Some?
      ensures r.Success? ==> r.value == value
      ensures r.Failure? ==> r.error == error
    {
      match this
      case Some(v) => Success(v)
      case None => Failure(error)
    }
  }

  /** The outcome of an operation that can throw: a value, or an error message. */
  datatype Result<+R, +E> = Success(value: R) | Failure(error: E)
}
