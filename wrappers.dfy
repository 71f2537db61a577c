/** Optional values and handler replies shared by every route. */
module Wrappers {

  datatype Option<+T> = None | Some(value: T) {
    function GetOr(default: T): T {
      match this
      case Some(v) => v
      case None => default
    }
  }

  /** An HTTP reply reduced to what the routes decide: a payload, or a status with an error text. */
  datatype Reply<+T> = Success(payload: T) | Failure(status: nat, error: string)

  const BadRequest: nat := 400
  const Unauthorized: nat := 401
  const ServerError: nat := 500
}
