/** The sign-in flow across its three routes: the initiate redirect, the callback that
    receives it, and the dashboard layout the callback sends the browser to. */
module SignIn {
  import opened Wrappers
  import opened Text
  import opened Http
  import opened Base64Url
  import opened Store
  import opened Whop
  import opened Auth
  import opened OAuthInitiate
  import opened OAuthCallback
  import opened Dashboard

  /** The callback request a browser makes when the authorization server sends it back
      with `code` and the state it was given, carrying the state cookie it was given. */
  function ReturnQuery(code: string, state: string): Query
  {
    [("code", code), ("state", state)]
  }

  /** The CSRF state round trip: the state in the authorize URL, returned next to the
      state cookie the same redirect set, passes the callback's check for any
      non-empty code. */
  lemma StateRoundTrip(env: map<string, string>, randomBytes: seq<Byte>, isProd: bool, code: string,
                       rest: CallbackInput)
    requires |randomBytes| == 24 && code != ""
    requires Initiate(env, randomBytes, isProd).Success?
    ensures var redirect := Initiate(env, randomBytes, isProd).value;
      var state := QueryGet(redirect.location.url.query, "state").value;
      var input := rest.(query := ReturnQuery(code, state),
                         cookies := map[OAuthStateCookieName := redirect.cookies[0].value]);
      StatePasses(QueryGet(input.query, "code"), QueryGet(input.query, "state"), StateCookie(input))
  {
    var redirect := Initiate(env, randomBytes, isProd).value;
    var state := GenerateToken(randomBytes);
    assert |state| == 32;
    var q := ReturnQuery(code, state);
    assert q[1..] == [("state", state)];
    assert QueryGet(q, "code") == Some(code);
    assert QueryGet(q, "state") == QueryGet(q[1..], "state") == Some(state);
  }

  /** The callback's landing page is right: until the new session expires, the cookie
      it set opens the dashboard iff it redirected to "/dashboard", and otherwise the
      layout sends the browser to "/no-access". */
  lemma CallbackThenLayout(t: AuthTables, hash: string -> string, input: CallbackInput,
                           post: TokenEndpoint, api: ApiClient, later: int)
    requires WellFormed(input) && ReachesWrites(input, post, api)
    requires CallbackSpec(t, hash, input, post, api).result.Success?
    requires input.now <= later < input.now + SessionLifetimeMs
    ensures var out := CallbackSpec(t, hash, input, post, api);
      var layout := DashboardLayout(out.tables.sessions, out.tables.memberships, hash,
                                    SessionCookie(GenerateToken(input.sessionBytes)), input.env, later);
      && (layout == RenderChildren <==> out.result.value.location == SameOrigin("/dashboard"))
      && (layout != RenderChildren ==> layout == RedirectTo("/no-access"))
  {
    var token := ExchangeWhopCodeForToken(input.env, QueryGet(input.query, "code").value, post).value;
    var viewer := FetchWhopViewer(token.accessToken, api).value;
    var productId := input.env["WHOP_PRODUCT_ID"];
    CallbackWrites(t, hash, input, post, api);
    LandingOpensLayout(t, hash, input, token, viewer, productId, later);
  }

  /** The same, for the writes themselves. */
  lemma LandingOpensLayout(t: AuthTables, hash: string -> string, input: CallbackInput,
                           token: WhopOAuthTokenResponse, viewer: Viewer, productId: string, later: int)
    requires WellFormed(input) && "WHOP_PRODUCT_ID" in input.env && input.env["WHOP_PRODUCT_ID"] == productId
    requires Provision(t, hash, input, token, viewer, productId).result.Success?
    requires input.now <= later < input.now + SessionLifetimeMs
    ensures var out := Provision(t, hash, input, token, viewer, productId);
      var layout := DashboardLayout(out.tables.sessions, out.tables.memberships, hash,
                                    SessionCookie(GenerateToken(input.sessionBytes)), input.env, later);
      && (layout == RenderChildren <==> out.result.value.location == SameOrigin("/dashboard"))
      && (layout != RenderChildren ==> layout == RedirectTo("/no-access"))
  {
    var out := Provision(t, hash, input, token, viewer, productId);
    var a := WriteAccount(t, input, viewer, productId);
    NewSessionResolves(t, hash, input, token, viewer, productId, later);
    NewMembershipFound(t, hash, input, token, viewer, productId);
    LayoutOfFoundMembership(out.tables.sessions, out.tables.memberships, hash,
                            SessionCookie(GenerateToken(input.sessionBytes)), input.env, later,
                            AuthContext(a.userId, a.workspaceId), a.status);
    ProvisionAnswer(t, hash, input, token, viewer, productId);
    AccountWrites(t, input, viewer, productId);
    WrittenStatuses(a.status);
  }

  /** Until it expires, the new session cookie resolves to the upserted user and workspace. */
  lemma NewSessionResolves(t: AuthTables, hash: string -> string, input: CallbackInput,
                           token: WhopOAuthTokenResponse, viewer: Viewer, productId: string, later: int)
    requires WellFormed(input)
    requires Provision(t, hash, input, token, viewer, productId).result.Success?
    requires input.now <= later < input.now + SessionLifetimeMs
    ensures var a := WriteAccount(t, input, viewer, productId);
      GetAuthContextFromCookies(Provision(t, hash, input, token, viewer, productId).tables.sessions, hash,
                                SessionCookie(GenerateToken(input.sessionBytes)), later)
        == Some(AuthContext(a.userId, a.workspaceId))
  {
    var a := WriteAccount(t, input, viewer, productId);
    var sessionToken := GenerateToken(input.sessionBytes);
    var row := NewSession(a, input, token);
    assert Provision(t, hash, input, token, viewer, productId).tables.sessions
        == InsertSession(t.sessions, hash, sessionToken, row).value;
    ResolveAfterCreate(t.sessions, hash, sessionToken, row, later);
  }

  /** The membership lookup for the upserted user, workspace and product finds the
      status the callback wrote. */
  lemma NewMembershipFound(t: AuthTables, hash: string -> string, input: CallbackInput,
                           token: WhopOAuthTokenResponse, viewer: Viewer, productId: string)
    requires WellFormed(input)
    ensures var a := WriteAccount(t, input, viewer, productId);
      GetActiveMembershipStatus(Provision(t, hash, input, token, viewer, productId).tables.memberships,
                                a.userId, a.workspaceId, productId) == Some(a.status)
  {
    ProvisionKeepsAccount(t, hash, input, token, viewer, productId);
    AccountWrites(t, input, viewer, productId);
  }
}
