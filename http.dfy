/** The HTTP outcomes the handlers produce: a status code with a body, or an error. */
module Http {

  /** Why a request failed with an unhandled exception (status 500). */
  datatype Fault =
    | CommitRejected      // the flush violated a NOT NULL column or a strict Boolean column
    | ResponseInvalid     // the stored record does not validate against the response schema
    | SubjectMissing      // `int(None)`: the token has no `sub` claim (TypeError)
    | SubjectNotInteger   // `int(sub)` on a non-numeric subject (ValueError)

  /** The errors a request can end with; each carries the `detail` the client sees. */
  datatype Error =
    | BadRequest(detail: string)
    | Unauthorized(detail: string)
    | Forbidden(detail: string)
    | NotFound(detail: string)
    | Unhandled(fault: Fault)

  datatype Response<+T> = Ok(code: int, body: T) | Fail(error: Error)

  const OK := 200
  const CREATED := 201
  const NO_CONTENT := 204

  /** The detail of every 403 the resource routers raise. */
  const NotPermitted := "Operation not permitted"
}
