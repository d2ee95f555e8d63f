/** Option and Result values: None stands for Python's None (and pandas' NaN where a
 *  number is missing); Err carries the message of an exception or an HTTP error. */
module Wrappers {
  datatype Option<T> = None | Some(value: T)
  {
    predicate IsSome() { this.Some? }

    function GetOr(default: T): (r: T)
      ensures this.Some? ==> r == value
      ensures this.None? ==> r == default
    {
      match this
      case None => default
      case Some(v) => v
    }
  }

  /** An HTTP error response: status code and detail text. */
  datatype HttpError = HttpError(status: int, detail: string)

  datatype Result<T> = Ok(value: T) | Err(error: HttpError)

  /** The result of a call that may raise: its value, or the message of the exception. */
  datatype Outcome<T> = Done(value: T) | Raised(message: string)
}
