/** What the services see of HTTP: status codes of replies and the exceptions FastAPI turns into responses. */
module Web {

  /** The answer to one outbound call: a response with its status code, or a transport error
      (connection refused, timeout, ...) raised by the HTTP client. */
  datatype Reply = Response(status: int) | TransportError

  predicate Is2xx(status: int) {
    200 <= status < 300
  }

  /** `raise_for_status()` passes exactly the 2xx responses; transport errors raise before that. */
  predicate Succeeded(r: Reply) {
    r.Response? && Is2xx(r.status)
  }

  /** FastAPI's `HTTPException(status_code, detail)`. */
  datatype HttpException = HttpException(status: int, detail: string)

  /** What a router endpoint answers: a body with its status, a raised `HTTPException`, the 422 that
      request validation produces before the handler runs, or an unhandled exception (500). */
  datatype Answer<T> =
    | Ok(status: int, body: T)
    | Raised(error: HttpException)
    | Unprocessable
    | ServerError
}
