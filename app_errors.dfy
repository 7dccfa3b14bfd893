/** Failure values shared by the services: an optional value, and the outcome of a
    service call, which either returns a value or throws an error carrying the HTTP
    status the client finally receives. */
module AppErrors {

  datatype Option<T> = None | Some(value: T) {
    function GetOr(default: T): T {
      match this
      case Some(v) => v
      case None => default
    }
  }

  /** `Err(status)` stands for a thrown error. An `AppError(message, status)` keeps its
      status; any other exception reaches the error handler without a status and is
      answered with 500. Messages are not modelled. */
  datatype Result<T> = Ok(value: T) | Err(status: nat)

  const BadRequest: nat := 400
  const NotFound: nat := 404
  const ServerError: nat := 500
}
