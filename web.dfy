/**
 * The HTTP boundary as the handlers see it: the failures they raise and the
 * response object whose `Set-Cookie` header some of them write.
 */
module Web {
  import opened Wrappers
  import opened Jwt

  /**
   * How a request fails.
   * - `Http(status, detail)`: an `HTTPException` raised by a handler.
   * - `RequestInvalid`: the request body failed pydantic validation (422),
   *   before any handler ran.
   * - `Unhandled(exception)`: a Python exception nobody catches, which the
   *   server turns into a 500 response.
   */
  datatype Failure =
    | Http(status: int, detail: string)
    | RequestInvalid
    | Unhandled(exception: string)

  type HttpResult<T> = Result<T, Failure>

  /** What a response says about the `access_token` cookie. */
  datatype CookieHeader = NoCookieHeader | SetCookie(token: Jws) | DeleteCookie

  /** The mutable `Response` object FastAPI injects into a handler. */
  class Response {
    var cookie: CookieHeader

    constructor ()
      ensures cookie == NoCookieHeader
    {
      cookie := NoCookieHeader;
    }

    /** `response.set_cookie(key="access_token", value=token, httponly=True)` */
    method SetAccessToken(token: Jws)
      modifies this
      ensures cookie == SetCookie(token)
    {
      cookie := SetCookie(token);
    }

    /** `response.delete_cookie("access_token")` */
    method DeleteAccessToken()
      modifies this
      ensures cookie == DeleteCookie
    {
      cookie := DeleteCookie;
    }
  }
}
