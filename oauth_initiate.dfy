/** `GET /api/auth/whop`: start the authorization-code flow with a fresh CSRF state
    (section 10.12 of RFC 6749) kept in a short-lived cookie. */
module OAuthInitiate {
  import opened Wrappers
  import opened Http
  import opened Base64Url
  import opened Whop
  import opened Auth

  const StateMaxAgeSeconds: int := 60 * 10

  function StateCookieOptions(isProd: bool): CookieOptions
  {
    CookieOptions(true, isProd, "lax", "/", Some(StateMaxAgeSeconds), None)
  }

  /** The authorization URL hands the state back under its own name. */
  lemma AuthorizeUrlCarriesState(env: map<string, string>, state: string)
    requires "WHOP_CLIENT_ID" in env && "WHOP_REDIRECT_URI" in env
    ensures QueryGet(BuildWhopAuthorizeUrl(env, state).value.query, "state") == Some(state)
  {
    var q := BuildWhopAuthorizeUrl(env, state).value.query;
    var tail := [("state", state), ("scope", RequestedScopes)];
    assert q[3..] == tail;
    assert QueryGet(q[3..], "state") == Some(state);
    assert q[2..][1..] == q[3..];
    assert q[1..][1..] == q[2..];
    assert q[1..] == q[1..];
    assert QueryGet(q[2..], "state") == QueryGet(q[3..], "state");
    assert QueryGet(q[1..], "state") == QueryGet(q[2..], "state");
  }

  /** The handler, with the 24 random bytes `generateToken(24)` draws. */
  function Initiate(env: map<string, string>, randomBytes: seq<Byte>, isProd: bool): (r: Result<Response, Fault>)
    requires |randomBytes| == 24
    ensures r.Success? <==> "WHOP_CLIENT_ID" in env && "WHOP_REDIRECT_URI" in env
    ensures r.Failure? ==> r == Failure(BuildWhopAuthorizeUrl(env, GenerateToken(randomBytes)).error)
    ensures r.Success? ==> (
      && var state := GenerateToken(randomBytes);
      && r.value.Redirect? && r.value.location.External?
      && r.value.location.url == BuildWhopAuthorizeUrl(env, state).value
      && QueryGet(r.value.location.url.query, "state") == Some(state)
      && r.value.cookies == [SetCookie(OAuthStateCookieName, state, StateCookieOptions(isProd))]
      && |state| == 32)
  {
    var state := GenerateToken(randomBytes);
    match BuildWhopAuthorizeUrl(env, state)
    case Failure(e) => Failure(e)
    case Success(url) =>
      AuthorizeUrlCarriesState(env, state);
      Success(Redirect(External(url), [SetCookie(OAuthStateCookieName, state, StateCookieOptions(isProd))]))
  }
}
