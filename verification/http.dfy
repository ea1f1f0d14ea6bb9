/** The HTTP status codes the routes answer with. */
module Http {
  const Ok := 200
  const CreatedStatus := 201
  const BadRequest := 400
  const Unauthorized := 401
  const NotFound := 404
  const Conflict := 409
  const ServerError := 500
}
