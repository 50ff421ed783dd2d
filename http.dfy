/** Values shared by every handler: optional fields and the HTTPException a
    handler raises, as an error value carrying the status code and the detail
    text the client receives. */
module Http {

  /** Python's Optional[...]: a field or query parameter that may be None. */
  datatype Option<+T> = None | Some(value: T) {
    function GetOr(default: T): T {
      match this
      case Some(v) => v
      case None => default
    }
  }

  /** An HTTPException: the response status and its "detail" string. */
  datatype Error = Error(status: int, detail: string)

  /** What a handler produces: its response body, or the exception it raised. */
  datatype Result<+T> = Ok(value: T) | Err(error: Error)

  const BadRequest := 400
  const Unauthorized := 401
  const Forbidden := 403
  const NotFound := 404
  const Conflict := 409
}
