/** The shape of what an HTTP handler writes back, shared by all handlers. */
module Http {

  const StatusOK := 200
  const StatusCreated := 201
  const StatusNoContent := 204
  const StatusBadRequest := 400
  const StatusUnauthorized := 401
  const StatusForbidden := 403
  const StatusMethodNotAllowed := 405
  const StatusUnsupportedMediaType := 415
  const StatusTooManyRequests := 429
  const StatusInternalServerError := 500

  /** The JSON key under which WriteError puts its message (sic). */
  const ErrorKey := "erro"

  /** A handler's reply: WriteError's `{"erro": message}`, WriteJSON with a
      payload, or a panic that ends the request without a reply. */
  datatype Reply<+B> = ErrorReply(status: int, message: string) | JsonReply(status: int, body: B) | Panic

  /** net/http's SameSite modes. */
  datatype SameSite = SameSiteDefaultMode | SameSiteLaxMode | SameSiteStrictMode | SameSiteNoneMode

  /** A Set-Cookie header; MaxAge < 0 deletes the cookie. */
  datatype Cookie = Cookie(name: string, value: string, path: string, httpOnly: bool, secure: bool,
                           sameSite: SameSite, maxAge: int)

  /** A request passing through a middleware either reaches the next handler or is answered. */
  datatype Gate<+B> = Next | Answered(reply: Reply<B>)
}
