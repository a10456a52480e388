/** The responses the endpoints send: a status code and a JSON body. */
module Http {

  datatype Body =
    /** No body (the 204 reply to a preflight request). */
    | NoBody
    /** `{ ok: false, code, message }`. */
    | Failure(code: string, message: string)
    /** `{ ok: true, license, domain, bound }`. */
    | Success(license: string, domain: string, bound: bool)
    /** The framework's own error page, not JSON (a request body the
        long-running server's JSON parser refused). */
    | ErrorPage

  datatype Response = Response(status: int, body: Body) {
    /** The `ok` field of the JSON body. */
    predicate Ok() {
      body.Success?
    }
  }

  function Fail(status: int, code: string, message: string): Response {
    Response(status, Failure(code, message))
  }
}
