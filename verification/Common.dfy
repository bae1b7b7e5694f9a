/** Types shared by every part of the portal model. */
module Common {

  datatype Option<+T> = None | Some(value: T) {
    /** SQL's `COALESCE(this, other)`. */
    function Or(other: Option<T>): Option<T> {
      if Some? then this else other
    }
  }

  /** The HTTP errors that the handlers raise; a handler that raises one writes nothing. */
  datatype Error =
    | BadRequest
    | Unauthorized
    | Forbidden
    | NotFound
    | Conflict
    | TooLarge
    | Unprocessable
    | ServerError

  datatype Result<+T> = Ok(value: T) | Err(error: Error)

  /** Primary keys (uuid or bigserial). The tables hand out fresh ones. */
  type Id = nat

  /** A timestamp in microseconds, the resolution of PostgreSQL's timestamptz. */
  type Time = int

  /** A SHA-256 digest. The hash itself is a parameter of the model. */
  type Digest = string

}
