/** Option and Result wrappers, and the HTTP errors the routers raise. */
module Results {

  datatype Option<+T> = None | Some(value: T)

  datatype Result<+T, +E> = Ok(value: T) | Err(error: E)

  /** The HTTP outcomes a router can produce instead of a normal response. */
  datatype ApiError =
    | Unprocessable               // 422: the framework rejected the request before the handler ran
    | BadRequest(detail: string)  // 400 raised by the handler
    | Unauthorized(detail: string)  // 401 raised by the handler
    | NotFound(detail: string)    // 404 raised by the handler and not caught
    | Internal(detail: string)    // 500: an exception turned into a server error
}
