/**
 * The HTTP status codes the metric stores return (Go's net/http constants).
 * The stores report outcomes as plain integers, not as errors.
 */
module HttpStatus {
  const StatusOK: int := 200
  const StatusBadRequest: int := 400
  const StatusNotFound: int := 404
  const StatusInternalServerError: int := 500
  const StatusNotImplemented: int := 501
}
