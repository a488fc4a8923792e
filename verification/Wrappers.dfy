/** Result types shared by every service: an absent row, and the HTTP errors the services throw. */
module Wrappers {

  datatype Option<+T> = None | Some(value: T)

  /** The kind of exception a service throws is all that is kept of it. */
  datatype Error = NotFound | BadRequest | Conflict | ServerError

  datatype Result<+T> = Ok(value: T) | Err(error: Error)

  /** The nullish-coalescing operator of the source. */
  function OrElse<T>(o: Option<T>, default: T): T {
    match o
    case Some(v) => v
    case None => default
  }

  /** What the database holds after an operation: a rejected one changes nothing. */
  function After<T>(before: T, r: Result<T>): T {
    match r
    case Ok(after) => after
    case Err(_) => before
  }

  /** The outcome of a call without the new table. */
  function Outcome<T>(r: Result<T>): Result<()> {
    match r
    case Ok(_) => Ok(())
    case Err(e) => Err(e)
  }
}
