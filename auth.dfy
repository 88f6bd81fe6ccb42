/** requireAuth: picking the access token of a request, a cookie first and then a
    Bearer credential of the Authorization header (section 2.1 of RFC 6750), and
    turning it into the request's user. The token verifier is an input. */
module Auth {
  import opened Base

  const BearerPrefix := "Bearer "

  /** The token of an Authorization header: what follows "Bearer " (exactly that
      spelling and case), else none. */
  function HeaderToken(header: string): (r: Option<string>)
    ensures r.Some? <==> StartsWith(header, BearerPrefix)
    ensures r.Some? ==> BearerPrefix + r.value == header
  {
    if StartsWith(header, BearerPrefix) then Some(header[7..]) else None
  }

  /** The header token of a Bearer credential is the credential. */
  lemma {:induction false} HeaderTokenOf(token: string)
    ensures HeaderToken(BearerPrefix + token) == Some(token)
  {
    assert (BearerPrefix + token)[..7] == BearerPrefix;
    assert (BearerPrefix + token)[7..] == token;
  }

  /** `cookieToken || headerToken`, where a missing header reads as "" and an empty
      token counts as none. */
  function SelectToken(cookie: Option<string>, header: Option<string>): (r: Option<string>)
    ensures r.Some? ==> r.value != ""
    ensures cookie.Some? && cookie.value != "" ==> r == cookie
    ensures (cookie.None? || cookie.value == "") ==>
      (r.Some? <==> header.Some? && HeaderToken(header.value).Some? && HeaderToken(header.value).value != "")
    ensures (cookie.None? || cookie.value == "") && r.Some? ==> r == HeaderToken(header.value)
  {
    var fromCookie := if cookie.Some? && cookie.value != "" then cookie else None;
    var fromHeader := HeaderToken(if header.Some? then header.value else "");
    if fromCookie.Some? then fromCookie
    else if fromHeader.Some? && fromHeader.value != "" then fromHeader
    else None
  }

  /** The outcome of the middleware: the user it attaches to the request, or a 401
      with its message. */
  datatype AuthOutcome = Authenticated(user: string) | Unauthorized(message: string)

  /** requireAuth. `verify(token)` is the user the auth service returns for a token,
      None when it reports an error or no user. */
  function RequireAuth(cookie: Option<string>, header: Option<string>, verify: string -> Option<string>): (r: AuthOutcome)
    ensures SelectToken(cookie, header).None? ==> r == Unauthorized("Missing auth token")
    ensures SelectToken(cookie, header).Some? && verify(SelectToken(cookie, header).value).None? ==>
      r == Unauthorized("Invalid or expired token")
    ensures r.Authenticated? <==>
      SelectToken(cookie, header).Some? && verify(SelectToken(cookie, header).value).Some?
    ensures r.Authenticated? ==> r.user == verify(SelectToken(cookie, header).value).value
  {
    match SelectToken(cookie, header)
    case None => Unauthorized("Missing auth token")
    case Some(token) =>
      match verify(token)
      case None => Unauthorized("Invalid or expired token")
      case Some(user) => Authenticated(user)
  }

  /** Without a token the verifier is never consulted: any two verifiers give the
      same outcome. */
  lemma {:induction false} NoTokenSkipsVerifier(cookie: Option<string>, header: Option<string>,
                             verify1: string -> Option<string>, verify2: string -> Option<string>)
    requires SelectToken(cookie, header).None?
    ensures RequireAuth(cookie, header, verify1) == RequireAuth(cookie, header, verify2)
  {
  }

  /** A cookie token wins: the header then plays no part in the outcome. */
  lemma {:induction false} CookieTakesPrecedence(cookie: string, header1: Option<string>, header2: Option<string>,
                              verify: string -> Option<string>)
    requires cookie != ""
    ensures RequireAuth(Some(cookie), header1, verify) == RequireAuth(Some(cookie), header2, verify)
  {
  }

  /** Without a cookie, a request carrying `Bearer <token>` is authenticated as the
      verifier's user for that token. */
  lemma {:induction false} BearerRequest(token: string, verify: string -> Option<string>)
    requires token != "" && verify(token).Some?
    ensures RequireAuth(None, Some(BearerPrefix + token), verify) == Authenticated(verify(token).value)
  {
    HeaderTokenOf(token);
  }
}
