/** The HTTP vocabulary the views and the API answer with. */
module Http {

  const OK: int := 200
  /** The redirect a Django form view answers with after a successful write. */
  const FOUND: int := 302
  const BAD_REQUEST: int := 400
  const FORBIDDEN: int := 403
  const NOT_FOUND: int := 404
  /** An exception that nothing catches ends the request with a server error. */
  const SERVER_ERROR: int := 500

  /** `permissions.SAFE_METHODS`: the read-only request methods. */
  const SAFE_METHODS: seq<string> := ["GET", "HEAD", "OPTIONS"]
}
