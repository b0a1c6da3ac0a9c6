/** The HTTP response vocabulary the controller and the exception handler share. */
module Http {
  datatype HttpStatus = Ok | Created | BadRequest | InternalServerError

  /** The numeric status code sent on the wire. */
  function StatusCode(s: HttpStatus): int {
    match s
    case Ok => 200
    case Created => 201
    case BadRequest => 400
    case InternalServerError => 500
  }

  /** A response: a status and a body. */
  datatype ResponseEntity<T> = ResponseEntity(status: HttpStatus, body: T)
}
