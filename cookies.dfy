/** The security package's cookie options: cookies are Secure outside development
    and always SameSite=Lax. */
module CookieOptionsGo {
  import opened GoStrings
  import opened Http
  import opened AuthHandlers

  /** The environment names that count as development, after trimming and lower-casing. */
  const DevNames: set<string> := {"", "dev", "development", "local"}

  /** isDev. */
  predicate IsDev(env: string) {
    ToLower(TrimSpace(env)) in DevNames
  }

  /** isDev looks through surrounding spaces and ASCII case: it gives the same
      answer on the normalised name. */
  lemma IsDevNormalised(env: string)
    ensures IsDev(ToLower(TrimSpace(env))) == IsDev(env)
  {
    var t := TrimSpace(env);
    TrimLowerCommute(t);
    TrimSpaceIdempotent(env);
    ToLowerIdempotent(t);
  }

  /** Surrounding spaces do not matter, and a name is compared after lower-casing. */
  lemma IsDevIgnoresPadding(pre: string, core: string, post: string)
    requires AllSpace(pre) && AllSpace(post) && Trimmed(core)
    ensures IsDev(pre + core + post) <==> ToLower(core) in DevNames
  {
    TrimSpaceOf(pre, core, post);
  }

  /** The CSRF cookie's options. */
  datatype CsrfOptions = CsrfOptions(secure: bool, sameSite: SameSite)

  /** SessionCookieOptions: Secure unless the environment is development; SameSite Lax. */
  function SessionCookieOptions(appEnv: string): (o: CookieOptions)
    ensures o.secure <==> !IsDev(appEnv)
    ensures o.sameSite == SameSiteLaxMode
  {
    CookieOptions(!IsDev(appEnv), SameSiteLaxMode)
  }

  /** CSRFCookieOptions: the same rule. */
  function CsrfCookieOptions(appEnv: string): (o: CsrfOptions)
    ensures o.secure <==> !IsDev(appEnv)
    ensures o.sameSite == SameSiteLaxMode
  {
    CsrfOptions(!IsDev(appEnv), SameSiteLaxMode)
  }

  /** The session and CSRF cookies of one environment agree on every attribute the options set. */
  lemma OptionsAgree(appEnv: string)
    ensures SessionCookieOptions(appEnv).secure == CsrfCookieOptions(appEnv).secure
    ensures SessionCookieOptions(appEnv).sameSite == CsrfCookieOptions(appEnv).sameSite
  {
  }
}
