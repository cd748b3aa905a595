/** Identifiers, optional values and the result shapes the services return. */
module Common {

  /** Primary keys (UUID columns in the database); the model draws them from a counter. */
  type UserId = nat
  type RoleId = nat

  /** The client's User-Agent header, used as the device key of a session. */
  type Agent = string

  datatype Option<+T> = None | Some(value: T)

  /** The HTTP statuses the services return as values (not raise). */
  datatype HttpStatus = Conflict | BadRequest | Unauthorized

  /** `Status(status='success')`. */
  datatype Status = Success

  /**
   * What a service call hands back:
   * - Done: the normal result;
   * - Rejected: an `HTTPStatus` returned as the result;
   * - Failed: `None`, returned by an exception handler or a failed guard;
   * - Raised: an exception that no handler in the service catches.
   */
  datatype Outcome<+T> = Done(value: T) | Rejected(status: HttpStatus) | Failed | Raised
}
