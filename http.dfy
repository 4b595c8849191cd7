/** What a handler answers. `next(new XError(message))` is answered by the central
    error handler with the status that belongs to the error class; `res.status(s).json(...)`
    answers directly. A handler that returns without doing either leaves the request
    unanswered. */
module Http {

  const OK: int := 200
  const CREATED: int := 201
  const BAD_REQUEST: int := 400
  const UNAUTHORIZED: int := 401
  const NOT_FOUND: int := 404
  const INTERNAL_SERVER: int := 500

  datatype Response = Respond(status: int, message: string) | NoResponse
  {
    predicate IsSuccess() { Respond? && 200 <= status < 300 }
  }

  function BadRequest(message: string): Response { Respond(BAD_REQUEST, message) }
  function Unauthorized(message: string): Response { Respond(UNAUTHORIZED, message) }
  function NotFound(message: string): Response { Respond(NOT_FOUND, message) }
  function Internal(message: string): Response { Respond(INTERNAL_SERVER, message) }
}
