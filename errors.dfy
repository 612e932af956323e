/** Outcomes of the request handlers: the HTTP exceptions they raise, as values. */
module Errors {

  datatype Option<+T> = None | Some(value: T)

  /** The failure kinds the handlers raise, each with the `detail` text the
      client receives. `Internal` is a 500: either an exception the handler
      caught and re-raised (`rethrown` holds the original one), or a failure
      no handler code catches (a database constraint at commit, an unbound
      local variable), for which `rethrown` is `None`. */
  datatype Error =
    | Unauthenticated(detail: string)
    | Forbidden(detail: string)
    | NotFound(detail: string)
    | Duplicate(detail: string)
    | InsufficientStock(detail: string)
    | Internal(rethrown: Option<Error>)

  datatype Result<+T> = Ok(value: T) | Err(error: Error)

  /** The HTTP status each kind is raised with; the same kind always maps to
      the same status. */
  function Status(e: Error): int
  {
    match e
    case Unauthenticated(_) => 401
    case Forbidden(_) => 403
    case NotFound(_) => 404
    case Duplicate(_) => 400
    case InsufficientStock(_) => 400
    case Internal(_) => 500
  }
}
