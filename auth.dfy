/** The authentication handlers: register, log in, log out. Each is a chain of
    guards ending in one reply; bcrypt, the session store and the random session
    id are answers passed in as parameters. */
module AuthHandlers {
  import opened Wrappers
  import opened GoStrings
  import opened Http
  import opened UsersRepo

  const SessionCookieName := "grr_session"
  /** Seven days, in seconds. */
  const SessionMaxAge := 60 * 60 * 24 * 7
  const MinPasswordBytes := 10
  const ErrInvalidCredentials := "invalid credentials"

  /** The cookie attributes that depend on the environment. */
  datatype CookieOptions = CookieOptions(secure: bool, sameSite: SameSite)

  /** SetSessionCookie: an HttpOnly session cookie on "/" that lasts seven days. */
  function SessionCookie(sessionId: string, opt: CookieOptions): (c: Cookie)
    ensures c.name == SessionCookieName && c.value == sessionId && c.path == "/"
    ensures c.httpOnly && c.maxAge == 604800
    ensures c.secure == opt.secure && c.sameSite == opt.sameSite
  {
    Cookie(SessionCookieName, sessionId, "/", true, opt.secure, opt.sameSite, SessionMaxAge)
  }

  /** ClearSessionCookie: the same cookie, emptied and expired at once. */
  function ClearedSessionCookie(opt: CookieOptions): (c: Cookie)
    ensures c == SessionCookie("", opt).(maxAge := -1)
    ensures c.maxAge < 0
  {
    Cookie(SessionCookieName, "", "/", true, opt.secure, opt.sameSite, -1)
  }

  /** The JSON body of a register or login request. */
  datatype Credentials = Credentials(email: string, password: string)

  /** A request as the handlers see it: the method (`verb`), the Content-Type header ("" when
      absent) and the decoded body, None when it is not valid JSON. */
  datatype AuthRequest = AuthRequest(verb: string, contentType: string, body: Option<Credentials>)

  /** The payloads the handlers write. */
  datatype AuthBody = UserBody(id: string, email: string) | StatusBody(status: string)

  /** The guards Register and Login share, in order: the method, the Content-Type
      (an absent header is accepted), the JSON body. */
  function RequestGate(req: AuthRequest): (r: Option<Reply<AuthBody>>)
    ensures req.verb != "POST" ==> r == Some(ErrorReply(StatusMethodNotAllowed, "method not allowed, use POST"))
    ensures req.verb == "POST" && req.contentType != "" && !Contains(req.contentType, "application/json") ==>
      r == Some(ErrorReply(StatusUnsupportedMediaType, "Content-Type must be application/json"))
    ensures r.None? <==> req.verb == "POST" && req.body.Some?
                         && (req.contentType == "" || Contains(req.contentType, "application/json"))
    ensures r.Some? ==> r.value.ErrorReply?
  {
    if req.verb != "POST" then Some(ErrorReply(StatusMethodNotAllowed, "method not allowed, use POST"))
    else if req.contentType != "" && !Contains(req.contentType, "application/json") then
      Some(ErrorReply(StatusUnsupportedMediaType, "Content-Type must be application/json"))
    else if req.body.None? then Some(ErrorReply(StatusBadRequest, "invalid json"))
    else None
  }

  /** Go's len(password) counts UTF-8 bytes, not characters. */
  predicate PasswordTooShort(password: string) {
    Utf8Len(password) < MinPasswordBytes
  }

  /** Register. `hashed` is bcrypt's answer (None when hashing fails) and `db` the
      answer to the INSERT. The repository is called with an empty name. */
  function Register(req: AuthRequest, hashed: Option<string>, db: InsertUserAnswer): (r: Reply<AuthBody>)
    ensures RequestGate(req).Some? ==> r == RequestGate(req).value
    ensures RequestGate(req).None? && PasswordTooShort(req.body.value.password) ==>
      r == ErrorReply(StatusBadRequest, "password must be at least 10 chars")
    ensures r.JsonReply? <==>
      && RequestGate(req).None? && !PasswordTooShort(req.body.value.password) && hashed.Some?
      && Create(req.body.value.email, hashed.value, "", db).Success?
    ensures r.JsonReply? ==>
      r == JsonReply(StatusCreated, UserBody(db.id, NormalizeEmail(req.body.value.email)))
    ensures !r.Panic?
  {
    match RequestGate(req)
    case Some(reply) => reply
    case None =>
      var creds := req.body.value;
      if PasswordTooShort(creds.password) then ErrorReply(StatusBadRequest, "password must be at least 10 chars")
      else if hashed.None? then ErrorReply(StatusInternalServerError, "could not hash password")
      else match Create(creds.email, hashed.value, "", db)
        case Failure(_) => ErrorReply(StatusBadRequest, "could not create user")
        case Success(u) => JsonReply(StatusCreated, UserBody(u.id, u.email))
  }

  /** A session the store saved: its id and the user it belongs to. */
  datatype Session = Session(id: string, userId: string)

  /** What Login did: its reply, the session it saved and the cookie it set. */
  datatype LoginOutcome = LoginOutcome(reply: Reply<AuthBody>, saved: Option<Session>, cookie: Option<Cookie>)

  /** Login. `passwordMatches` is bcrypt's comparison of the found user's hash with
      the password, `sessionId` the new random id (None when the generator fails),
      and `saveFault` the session store's error, if any. */
  function Login(req: AuthRequest, users: seq<User>, passwordMatches: bool, sessionId: Option<string>,
                 saveFault: Option<string>, opt: CookieOptions): (r: LoginOutcome)
    ensures RequestGate(req).Some? ==> r == LoginOutcome(RequestGate(req).value, None, None)
    ensures r.reply.JsonReply? <==>
      && RequestGate(req).None? && FindByEmail(users, req.body.value.email).Success?
      && passwordMatches && sessionId.Some? && saveFault.None?
    ensures r.reply.JsonReply? ==>
      var u := FindByEmail(users, req.body.value.email).value;
      && r.reply == JsonReply(StatusOK, UserBody(u.id, u.email))
      && r.cookie == Some(SessionCookie(sessionId.value, opt))
      && r.saved == Some(Session(sessionId.value, u.id))
    ensures !r.reply.JsonReply? ==> r.cookie.None?
    ensures r.saved.Some? ==> r.reply.JsonReply? || saveFault.Some?
  {
    match RequestGate(req)
    case Some(reply) => LoginOutcome(reply, None, None)
    case None =>
      match FindByEmail(users, req.body.value.email)
      case Failure(_) => LoginOutcome(ErrorReply(StatusUnauthorized, ErrInvalidCredentials), None, None)
      case Success(u) =>
        if !passwordMatches then LoginOutcome(ErrorReply(StatusUnauthorized, ErrInvalidCredentials), None, None)
        else match sessionId
          case None => LoginOutcome(ErrorReply(StatusInternalServerError, "could not create session"), None, None)
          case Some(sid) =>
            if saveFault.Some? then
              // The store may have failed after writing; the model records no session.
              LoginOutcome(ErrorReply(StatusInternalServerError, "could  not save session"), None, None)
            else LoginOutcome(JsonReply(StatusOK, UserBody(u.id, u.email)), Some(Session(sid, u.id)), Some(SessionCookie(sid, opt)))
  }

  /** An unknown address and a wrong password are told apart by nothing: the same
      401 reply, no session, no cookie. */
  lemma LoginFailuresAlike(req: AuthRequest, unknown: seq<User>, known: seq<User>,
                           sessionId: Option<string>, saveFault: Option<string>, opt: CookieOptions)
    requires RequestGate(req).None?
    requires FindByEmail(unknown, req.body.value.email).Failure?
    requires FindByEmail(known, req.body.value.email).Success?
    ensures Login(req, unknown, true, sessionId, saveFault, opt)
         == Login(req, known, false, sessionId, saveFault, opt)
         == LoginOutcome(ErrorReply(StatusUnauthorized, ErrInvalidCredentials), None, None)
  {
  }

  /** Register and Login answer a request that fails a shared guard identically, whatever the stores say. */
  lemma GuardsShared(req: AuthRequest, hashed: Option<string>, db: InsertUserAnswer, users: seq<User>,
                     passwordMatches: bool, sessionId: Option<string>, saveFault: Option<string>, opt: CookieOptions)
    requires RequestGate(req).Some?
    ensures Register(req, hashed, db) == Login(req, users, passwordMatches, sessionId, saveFault, opt).reply
  {
  }

  /** The password rule counts bytes: five two-byte characters are long enough. */
  lemma PasswordCountsBytes()
    ensures !PasswordTooShort("ééééé") && |"ééééé"| == 5
  {
    assert Utf8Len("é") == 2;
  }

  /** What Logout did: the session it asked the store to delete, the cookie it set and its reply. */
  datatype LogoutOutcome = LogoutOutcome(deleted: Option<string>, cookie: Cookie, reply: Reply<AuthBody>)

  /** Logout: clears the cookie and answers ok in every case; the session is
      deleted only when the request carries a non-empty session cookie. A failed
      delete is ignored. */
  function Logout(sessionCookie: Option<string>, opt: CookieOptions): (r: LogoutOutcome)
    ensures r.reply == JsonReply(StatusOK, StatusBody("ok"))
    ensures r.cookie == ClearedSessionCookie(opt)
    ensures r.deleted.Some? <==> sessionCookie.Some? && sessionCookie.value != ""
    ensures r.deleted.Some? ==> r.deleted == sessionCookie
  {
    var deleted := if sessionCookie.Some? && sessionCookie.value != "" then sessionCookie else None;
    LogoutOutcome(deleted, ClearedSessionCookie(opt), JsonReply(StatusOK, StatusBody("ok")))
  }
}
