/**
  `GET /api/auth/whop/callback`: check the CSRF state, trade the code for a token,
  read the viewer, pick the entitling membership, upsert user, workspace and
  membership, open a session, and send the browser on.
  `CallbackSpec` says what one call does to the tables and what it answers;
  `Callback` runs the same steps one write at a time on a `Db`.
 */
module OAuthCallback {
  import opened Wrappers
  import opened Json
  import opened Text
  import opened Http
  import opened Base64Url
  import opened Store
  import opened Whop
  import opened Auth

  /** Thirty days in milliseconds. */
  const SessionLifetimeMs: int := 1000 * 60 * 60 * 24 * 30

  /** `isActiveStatus`: trimmed and lower-cased, the status reads "active". */
  predicate IsActiveStatus(status: string)
  {
    Lower(Trim(status)) == "active"
  }

  /** The `find` predicate: the configured product, an active status, a business id. */
  predicate Entitles(m: ViewerMembership, productId: string)
  {
    m.productId == Some(productId) && IsActiveStatus(m.status) && m.business.Some? && m.business.value.id != ""
  }

  /** `memberships.find(...)`: nothing iff no membership entitles; otherwise an
      entitling one (`FindMatchIsFirst` says which). */
  function FindMatch(ms: seq<ViewerMembership>, productId: string): (r: Option<ViewerMembership>)
    ensures r.None? <==> forall i :: 0 <= i < |ms| ==> !Entitles(ms[i], productId)
    ensures r.Some? ==> Entitles(r.value, productId)
  {
    if |ms| == 0 then None
    else if Entitles(ms[0], productId) then Some(ms[0])
    else
      assert forall j :: 1 <= j < |ms| ==> ms[j] == ms[1..][j - 1];
      FindMatch(ms[1..], productId)
  }

  /** The match is the first entitling membership in list order. */
  lemma {:induction false} FindMatchIsFirst(ms: seq<ViewerMembership>, productId: string, i: int)
    requires 0 <= i < |ms| && Entitles(ms[i], productId)
    requires forall j :: 0 <= j < i ==> !Entitles(ms[j], productId)
    ensures FindMatch(ms, productId) == Some(ms[i])
    decreases i
  {
    if i > 0 {
      assert !Entitles(ms[0], productId);
      assert forall j :: 0 <= j < i - 1 ==> ms[1..][j] == ms[j + 1];
      FindMatchIsFirst(ms[1..], productId, i - 1);
    }
  }

  /** `matching?.business?.id ?? 'personal_' + viewer.id` */
  function WorkspaceKey(matching: Option<ViewerMembership>, viewerId: string): string
  {
    if matching.Some? && matching.value.business.Some? then matching.value.business.value.id
    else "personal_" + viewerId
  }

  /** `matching?.business?.name ?? null` */
  function WorkspaceName(matching: Option<ViewerMembership>): Option<string>
  {
    if matching.Some? && matching.value.business.Some? then matching.value.business.value.name else None
  }

  /** The state check: code, state and state cookie all present and non-empty, and the
      state equal to the cookie, character for character. */
  predicate StatePasses(code: Option<string>, state: Option<string>, expected: Option<string>)
  {
    && code.Some? && code.value != ""
    && state.Some? && state.value != ""
    && expected.Some? && expected.value != ""
    && state.value == expected.value
  }

  /** `prisma.user.upsert` on `whopUserId`: the row's id never changes once made. */
  function UpsertUser(users: map<string, UserRow>, whopUserId: string, email: Option<string>,
                      name: Option<string>, freshId: string): (r: (map<string, UserRow>, UserRow))
    ensures r.0.Keys == users.Keys + {whopUserId} && r.0[whopUserId] == r.1
    ensures r.1.email == email && r.1.name == name
    ensures r.1.id == if whopUserId in users then users[whopUserId].id else freshId
    ensures forall k :: k in users && k != whopUserId ==> r.0[k] == users[k]
  {
    var row := if whopUserId in users then users[whopUserId].(email := email, name := name)
               else UserRow(freshId, email, name);
    (users[whopUserId := row], row)
  }

  /** `prisma.workspace.upsert` on `whopBusinessId`. */
  function UpsertWorkspace(workspaces: map<string, WorkspaceRow>, whopBusinessId: string,
                           name: Option<string>, freshId: string): (r: (map<string, WorkspaceRow>, WorkspaceRow))
    ensures r.0.Keys == workspaces.Keys + {whopBusinessId} && r.0[whopBusinessId] == r.1
    ensures r.1.name == name
    ensures r.1.id == if whopBusinessId in workspaces then workspaces[whopBusinessId].id else freshId
    ensures forall k :: k in workspaces && k != whopBusinessId ==> r.0[k] == workspaces[k]
  {
    var row := if whopBusinessId in workspaces then workspaces[whopBusinessId].(name := name)
               else WorkspaceRow(freshId, name);
    (workspaces[whopBusinessId := row], row)
  }

  /** `prisma.membership.upsert` on the composite key: create and update write the
      same status and external id. */
  function UpsertMembership(memberships: map<MembershipKey, MembershipRow>, key: MembershipKey,
                            status: string, whopMembershipId: Option<string>): (r: map<MembershipKey, MembershipRow>)
    ensures r.Keys == memberships.Keys + {key}
    ensures r[key] == MembershipRow(status, whopMembershipId)
    ensures forall k :: k in memberships && k != key ==> r[k] == memberships[k]
  {
    memberships[key := MembershipRow(status, whopMembershipId)]
  }

  /** What the callback gets from outside: the query, the cookies, the configuration,
      the clock, the two upstream services, and the generated values (new row ids and
      the 32 random bytes of the session token). */
  datatype CallbackInput = CallbackInput(
    query: Query,
    cookies: map<string, string>,
    env: map<string, string>,
    isProd: bool,
    now: int,
    newUserId: string,
    newWorkspaceId: string,
    sessionBytes: seq<Byte>)

  predicate WellFormed(input: CallbackInput)
  {
    |input.sessionBytes| == 32
  }

  function StateCookie(input: CallbackInput): Option<string>
  {
    if OAuthStateCookieName in input.cookies then Some(input.cookies[OAuthStateCookieName]) else None
  }

  datatype CallbackOutcome = CallbackOutcome(result: Result<Response, Fault>, tables: AuthTables)

  function SessionCookieOptions(isProd: bool, expiresAt: int): CookieOptions
  {
    CookieOptions(true, isProd, "lax", "/", None, Some(expiresAt))
  }

  /** `typeof token.expires_in === 'number' ? now + expires_in * 1000 : null` */
  function UpstreamExpiry(expiresIn: JsValue, now: int): Option<int>
  {
    if expiresIn.Num? then Some(now + expiresIn.n * 1000) else None
  }

  /** `matching?.id ?? null` */
  function MatchId(matching: Option<ViewerMembership>): Option<string>
  {
    if matching.Some? then Some(matching.value.id) else None
  }

  function StatusFor(matching: Option<ViewerMembership>): string
  {
    if matching.Some? then "active" else "inactive"
  }

  function LoginRedirect(): Response
  {
    Redirect(SameOrigin("/login"), [DeleteCookie(OAuthStateCookieName)])
  }

  /** The three upserts and what the session needs from them. */
  datatype Account = Account(
    users: map<string, UserRow>,
    workspaces: map<string, WorkspaceRow>,
    memberships: map<MembershipKey, MembershipRow>,
    userId: string,
    workspaceId: string,
    status: string)

  function WriteAccount(t: AuthTables, input: CallbackInput, viewer: Viewer, productId: string): Account
  {
    Upserts(t, input, viewer, productId, FindMatch(viewer.memberships, productId))
  }

  /** The three upserts for a given match (or none). */
  function Upserts(t: AuthTables, input: CallbackInput, viewer: Viewer, productId: string,
                   matching: Option<ViewerMembership>): Account
  {
    var user := UpsertUser(t.users, viewer.id, viewer.email, viewer.name, input.newUserId);
    var workspace := UpsertWorkspace(t.workspaces, WorkspaceKey(matching, viewer.id),
                                     WorkspaceName(matching), input.newWorkspaceId);
    var status := StatusFor(matching);
    var memberships := UpsertMembership(t.memberships, MembershipKey(user.1.id, workspace.1.id, productId),
                                        status, MatchId(matching));
    Account(user.0, workspace.0, memberships, user.1.id, workspace.1.id, status)
  }

  /** The row `createSession` writes for the account. */
  function NewSession(account: Account, input: CallbackInput, token: WhopOAuthTokenResponse): SessionRow
  {
    SessionRow(account.userId, account.workspaceId, input.now + SessionLifetimeMs,
               Some(token.accessToken), UpstreamExpiry(token.expiresIn, input.now))
  }

  function Landing(status: string): string
  {
    if status == "active" then "/dashboard" else "/no-access"
  }

  /** The writes of a callback that got a viewer and a product id, and its answer. */
  function Provision(t: AuthTables, hash: string -> string, input: CallbackInput,
                     token: WhopOAuthTokenResponse, viewer: Viewer, productId: string): (out: CallbackOutcome)
    requires WellFormed(input)
  {
    var account := WriteAccount(t, input, viewer, productId);
    var sessionToken := GenerateToken(input.sessionBytes);
    match InsertSession(t.sessions, hash, sessionToken, NewSession(account, input, token))
    case Failure(e) =>
      CallbackOutcome(Failure(e), AuthTables(account.users, account.workspaces, account.memberships, t.sessions))
    case Success(sessions) =>
      CallbackOutcome(
        Success(Redirect(SameOrigin(Landing(account.status)),
                         [DeleteCookie(OAuthStateCookieName),
                          SetCookie(SessionCookieName, sessionToken,
                                    SessionCookieOptions(input.isProd, input.now + SessionLifetimeMs))])),
        AuthTables(account.users, account.workspaces, account.memberships, sessions))
  }

  /** One call of the callback: its answer (or the fault it throws) and the tables after it. */
  function CallbackSpec(t: AuthTables, hash: string -> string, input: CallbackInput,
                        post: TokenEndpoint, api: ApiClient): (out: CallbackOutcome)
    requires WellFormed(input)
  {
    var code, state := QueryGet(input.query, "code"), QueryGet(input.query, "state");
    if !StatePasses(code, state, StateCookie(input)) then CallbackOutcome(Success(LoginRedirect()), t)
    else
      match ExchangeWhopCodeForToken(input.env, code.value, post)
      case Failure(e) => CallbackOutcome(Failure(e), t)
      case Success(token) =>
        match FetchWhopViewer(token.accessToken, api)
        case Failure(e) => CallbackOutcome(Failure(e), t)
        case Success(viewer) =>
          match RequireEnv(input.env, "WHOP_PRODUCT_ID")
          case Failure(e) => CallbackOutcome(Failure(e), t)
          case Success(productId) => Provision(t, hash, input, token, viewer, productId)
  }

  /** The three upserts of `WriteAccount`, one at a time. */
  method WriteAccountDb(db: Db, input: CallbackInput, viewer: Viewer, productId: string)
    returns (userId: string, workspaceId: string, status: string)
    modifies db`users, db`workspaces, db`memberships
    ensures Account(db.users, db.workspaces, db.memberships, userId, workspaceId, status)
         == WriteAccount(old(db.Auth()), input, viewer, productId)
  {
    var matching := FindMatch(viewer.memberships, productId);
    var userUpsert := UpsertUser(db.users, viewer.id, viewer.email, viewer.name, input.newUserId);
    db.users := userUpsert.0;
    userId := userUpsert.1.id;
    var workspaceUpsert := UpsertWorkspace(db.workspaces, WorkspaceKey(matching, viewer.id),
                                           WorkspaceName(matching), input.newWorkspaceId);
    db.workspaces := workspaceUpsert.0;
    workspaceId := workspaceUpsert.1.id;
    status := StatusFor(matching);
    db.memberships := UpsertMembership(db.memberships, MembershipKey(userId, workspaceId, productId),
                                       status, MatchId(matching));
  }

  /** The writes of `Provision`, one at a time. */
  method ProvisionDb(db: Db, input: CallbackInput, token: WhopOAuthTokenResponse, viewer: Viewer, productId: string)
    returns (r: Result<Response, Fault>)
    requires WellFormed(input)
    modifies db`users, db`workspaces, db`memberships, db`sessions
    ensures CallbackOutcome(r, db.Auth()) == Provision(old(db.Auth()), db.hash, input, token, viewer, productId)
  {
    ghost var account := WriteAccount(db.Auth(), input, viewer, productId);
    var userId, workspaceId, status := WriteAccountDb(db, input, viewer, productId);
    var expiresAt := input.now + SessionLifetimeMs;
    var session := CreateSession(db, userId, workspaceId, expiresAt, Some(token.accessToken),
                                 UpstreamExpiry(token.expiresIn, input.now), input.sessionBytes);
    if session.Failure? {
      return Failure(session.error);
    }
    r := Success(Redirect(SameOrigin(Landing(status)),
                          [DeleteCookie(OAuthStateCookieName),
                           SetCookie(SessionCookieName, session.value, SessionCookieOptions(input.isProd, expiresAt))]));
  }

  /** The handler: the checks and upstream calls, then the writes. */
  method Callback(db: Db, input: CallbackInput, post: TokenEndpoint, api: ApiClient)
    returns (r: Result<Response, Fault>)
    requires WellFormed(input)
    modifies db`users, db`workspaces, db`memberships, db`sessions
    ensures CallbackOutcome(r, db.Auth()) == CallbackSpec(old(db.Auth()), db.hash, input, post, api)
  {
    var code, state := QueryGet(input.query, "code"), QueryGet(input.query, "state");
    if !StatePasses(code, state, StateCookie(input)) {
      return Success(LoginRedirect());
    }
    var exchanged := ExchangeWhopCodeForToken(input.env, code.value, post);
    if exchanged.Failure? {
      return Failure(exchanged.error);
    }
    var fetched := FetchWhopViewer(exchanged.value.accessToken, api);
    if fetched.Failure? {
      return Failure(fetched.error);
    }
    var product := RequireEnv(input.env, "WHOP_PRODUCT_ID");
    if product.Failure? {
      return Failure(product.error);
    }
    r := ProvisionDb(db, input, exchanged.value, fetched.value, product.value);
  }

  /** One space either side of a status does not change whether it is active. */
  lemma PaddingIgnored(status: string)
    requires |status| > 0 && !IsJsSpace(status[0]) && !IsJsSpace(status[|status| - 1])
    ensures IsActiveStatus([' '] + status + [' ']) == IsActiveStatus(status)
  {
    TrimSpacePadded(status);
    TrimBare(status);
  }

  /** `isActiveStatus` reads through padding and case: " ACTIVE " is active. */
  lemma PaddedUpperIsActive(status: string)
    requires status == " ACTIVE "
    ensures IsActiveStatus(status)
  {
    var word := "ACTIVE";
    PaddingIgnored(word);
    assert status == [' '] + word + [' '];
    assert Lower(word) == "active";
  }

  /** "pending" is not active. */
  lemma PendingIsNotActive(status: string)
    requires status == "pending"
    ensures !IsActiveStatus(status)
  {
    TrimBare(status);
    assert |Lower(status)| == 7;
  }

  /** Nor is the empty status a viewer membership defaults to. */
  lemma EmptyIsNotActive(status: string)
    requires status == ""
    ensures !IsActiveStatus(status)
  {
    assert Trim(status) == "";
  }

  /** The stage a callback reaches: the state check passed and the token, the viewer
      and the product id were all obtained. */
  predicate ReachesWrites(input: CallbackInput, post: TokenEndpoint, api: ApiClient)
  {
    var code, state := QueryGet(input.query, "code"), QueryGet(input.query, "state");
    && StatePasses(code, state, StateCookie(input))
    && ExchangeWhopCodeForToken(input.env, code.value, post).Success?
    && FetchWhopViewer(ExchangeWhopCodeForToken(input.env, code.value, post).value.accessToken, api).Success?
    && "WHOP_PRODUCT_ID" in input.env
  }

  /** A rejected state answers with the login redirect that clears the state cookie;
      any call that stops before the writes, by rejection or by a fault, leaves every
      table as it was. */
  lemma NoWritesBeforeProvision(t: AuthTables, hash: string -> string, input: CallbackInput,
                                post: TokenEndpoint, api: ApiClient)
    requires WellFormed(input)
    ensures !StatePasses(QueryGet(input.query, "code"), QueryGet(input.query, "state"), StateCookie(input)) ==>
      CallbackSpec(t, hash, input, post, api) == CallbackOutcome(Success(LoginRedirect()), t)
    ensures !ReachesWrites(input, post, api) ==> CallbackSpec(t, hash, input, post, api).tables == t
    ensures (StatePasses(QueryGet(input.query, "code"), QueryGet(input.query, "state"), StateCookie(input))
             && !ReachesWrites(input, post, api)) ==> CallbackSpec(t, hash, input, post, api).result.Failure?
  {
  }

  /** A call that reaches the writes does what `Provision` does with the token, the
      viewer and the product id it obtained. */
  lemma CallbackWrites(t: AuthTables, hash: string -> string, input: CallbackInput, post: TokenEndpoint, api: ApiClient)
    requires WellFormed(input) && ReachesWrites(input, post, api)
    ensures var token := ExchangeWhopCodeForToken(input.env, QueryGet(input.query, "code").value, post).value;
      CallbackSpec(t, hash, input, post, api)
        == Provision(t, hash, input, token, FetchWhopViewer(token.accessToken, api).value, input.env["WHOP_PRODUCT_ID"])
  {
  }

  /** The users, workspaces and memberships after the three upserts. */
  lemma AccountWrites(t: AuthTables, input: CallbackInput, viewer: Viewer, productId: string)
    ensures var a := WriteAccount(t, input, viewer, productId);
      var matching := FindMatch(viewer.memberships, productId);
      var key := MembershipKey(a.userId, a.workspaceId, productId);
      && a.users.Keys == t.users.Keys + {viewer.id}
      && a.users[viewer.id] == UserRow(a.userId, viewer.email, viewer.name)
      && a.workspaces.Keys == t.workspaces.Keys + {WorkspaceKey(matching, viewer.id)}
      && a.workspaces[WorkspaceKey(matching, viewer.id)] == WorkspaceRow(a.workspaceId, WorkspaceName(matching))
      && a.memberships.Keys == t.memberships.Keys + {key}
      && a.memberships[key] == MembershipRow(a.status, MatchId(matching))
      && (a.status == "active" <==> matching.Some?)
      && (matching.None? ==> WorkspaceKey(matching, viewer.id) == "personal_" + viewer.id)
      && (forall k :: k in t.users && k != viewer.id ==> a.users[k] == t.users[k])
      && (forall k :: k in t.workspaces && k != WorkspaceKey(matching, viewer.id) ==> a.workspaces[k] == t.workspaces[k])
      && (forall k :: k in t.memberships && k != key ==> a.memberships[k] == t.memberships[k])
  {
  }

  /** A callback that writes adds exactly one session, under the new token's hash,
      and touches no other; a taken hash is the unique-key fault and adds none. */
  lemma ProvisionAddsOneSession(t: AuthTables, hash: string -> string, input: CallbackInput,
                                token: WhopOAuthTokenResponse, viewer: Viewer, productId: string)
    requires WellFormed(input)
    ensures var out := Provision(t, hash, input, token, viewer, productId);
      var h := hash(GenerateToken(input.sessionBytes));
      && (out.result.Success? <==> h !in t.sessions)
      && (out.result.Failure? ==> out.result.error == UniqueConstraint("session") && out.tables.sessions == t.sessions)
      && (out.result.Success? ==>
           && out.tables.sessions.Keys == t.sessions.Keys + {h}
           && |out.tables.sessions| == |t.sessions| + 1
           && forall k :: k in t.sessions ==> out.tables.sessions[k] == t.sessions[k])
  {
    var out := Provision(t, hash, input, token, viewer, productId);
    var h := hash(GenerateToken(input.sessionBytes));
    var a := WriteAccount(t, input, viewer, productId);
    assert out.tables.sessions == if h in t.sessions then t.sessions else t.sessions[h := NewSession(a, input, token)];
    if out.result.Success? {
      assert |t.sessions.Keys + {h}| == |t.sessions.Keys| + 1;
    }
  }

  /** The new session belongs to the upserted user and workspace, expires thirty days
      on, and keeps the upstream token with its expiry when `expires_in` is a number. */
  lemma ProvisionSessionRow(t: AuthTables, hash: string -> string, input: CallbackInput,
                            token: WhopOAuthTokenResponse, viewer: Viewer, productId: string)
    requires WellFormed(input)
    requires Provision(t, hash, input, token, viewer, productId).result.Success?
    ensures var out := Provision(t, hash, input, token, viewer, productId);
      var a := WriteAccount(t, input, viewer, productId);
      out.tables.sessions[hash(GenerateToken(input.sessionBytes))] == SessionRow(
        a.users[viewer.id].id, a.workspaces[WorkspaceKey(FindMatch(viewer.memberships, productId), viewer.id)].id,
        input.now + SessionLifetimeMs, Some(token.accessToken),
        if token.expiresIn.Num? then Some(input.now + token.expiresIn.n * 1000) else None)
  {
    var a := WriteAccount(t, input, viewer, productId);
    AccountWrites(t, input, viewer, productId);
    assert Provision(t, hash, input, token, viewer, productId).tables.sessions
        == t.sessions[hash(GenerateToken(input.sessionBytes)) := NewSession(a, input, token)];
  }

  /** A callback that writes sends the browser to the dashboard iff a membership
      entitles the viewer, clears the state cookie, and sets the session cookie to the
      raw 43-character token with the session's expiry. */
  lemma ProvisionAnswer(t: AuthTables, hash: string -> string, input: CallbackInput,
                        token: WhopOAuthTokenResponse, viewer: Viewer, productId: string)
    requires WellFormed(input)
    requires Provision(t, hash, input, token, viewer, productId).result.Success?
    ensures var sessionToken := GenerateToken(input.sessionBytes);
      && Provision(t, hash, input, token, viewer, productId).result.value == Redirect(
           SameOrigin(if FindMatch(viewer.memberships, productId).Some? then "/dashboard" else "/no-access"),
           [DeleteCookie(OAuthStateCookieName),
            SetCookie(SessionCookieName, sessionToken,
                      CookieOptions(true, input.isProd, "lax", "/", None, Some(input.now + SessionLifetimeMs)))])
      && |sessionToken| == 43
  {
  }

  /** A second upsert of the same user keeps the row it finds. */
  lemma UpsertUserTwice(users: map<string, UserRow>, whopUserId: string, email: Option<string>,
                        name: Option<string>, freshId: string, otherFreshId: string)
    ensures var once := UpsertUser(users, whopUserId, email, name, freshId);
      UpsertUser(once.0, whopUserId, email, name, otherFreshId) == once
  {
    var once := UpsertUser(users, whopUserId, email, name, freshId);
    assert once.0[whopUserId].(email := email, name := name) == once.1;
    assert once.0[whopUserId := once.1] == once.0;
  }

  /** A second upsert of the same workspace keeps the row it finds. */
  lemma UpsertWorkspaceTwice(workspaces: map<string, WorkspaceRow>, whopBusinessId: string,
                             name: Option<string>, freshId: string, otherFreshId: string)
    ensures var once := UpsertWorkspace(workspaces, whopBusinessId, name, freshId);
      UpsertWorkspace(once.0, whopBusinessId, name, otherFreshId) == once
  {
    var once := UpsertWorkspace(workspaces, whopBusinessId, name, freshId);
    assert once.0[whopBusinessId].(name := name) == once.1;
    assert once.0[whopBusinessId := once.1] == once.0;
  }

  /** The user, workspace and membership tables after `Provision` are the account's,
      whatever the session insert did. */
  lemma ProvisionKeepsAccount(t: AuthTables, hash: string -> string, input: CallbackInput,
                              token: WhopOAuthTokenResponse, viewer: Viewer, productId: string)
    requires WellFormed(input)
    ensures var out := Provision(t, hash, input, token, viewer, productId);
      var a := WriteAccount(t, input, viewer, productId);
      out.tables.users == a.users && out.tables.workspaces == a.workspaces && out.tables.memberships == a.memberships
  {
  }

  /** Upserting the account a second time for the same viewer and product changes nothing. */
  lemma WriteAccountTwice(t: AuthTables, first: CallbackInput, second: CallbackInput, viewer: Viewer, productId: string)
    ensures var a1 := WriteAccount(t, first, viewer, productId);
      WriteAccount(AuthTables(a1.users, a1.workspaces, a1.memberships, t.sessions), second, viewer, productId) == a1
  {
    UpsertsTwice(t, first, second, viewer, productId, FindMatch(viewer.memberships, productId));
  }

  lemma UpsertsTwice(t: AuthTables, first: CallbackInput, second: CallbackInput, viewer: Viewer, productId: string,
                     matching: Option<ViewerMembership>)
    ensures var a1 := Upserts(t, first, viewer, productId, matching);
      Upserts(AuthTables(a1.users, a1.workspaces, a1.memberships, t.sessions), second, viewer, productId, matching) == a1
  {
    var key := WorkspaceKey(matching, viewer.id);
    var a1 := Upserts(t, first, viewer, productId, matching);
    var u1 := UpsertUser(t.users, viewer.id, viewer.email, viewer.name, first.newUserId);
    var w1 := UpsertWorkspace(t.workspaces, key, WorkspaceName(matching), first.newWorkspaceId);
    assert a1.users == u1.0 && a1.userId == u1.1.id;
    assert a1.workspaces == w1.0 && a1.workspaceId == w1.1.id;
    UpsertUserTwice(t.users, viewer.id, viewer.email, viewer.name, first.newUserId, second.newUserId);
    UpsertWorkspaceTwice(t.workspaces, key, WorkspaceName(matching), first.newWorkspaceId, second.newWorkspaceId);
    var mkey := MembershipKey(a1.userId, a1.workspaceId, productId);
    var row := MembershipRow(a1.status, MatchId(matching));
    assert a1.memberships[mkey] == row;
    assert a1.memberships[mkey := row] == a1.memberships;
  }

  /** Running the writes again for the same viewer and product adds no user, workspace
      or membership row, and keeps every row id: the tables come out as the first run
      left them. */
  lemma RepeatAddsNoRows(t: AuthTables, hash: string -> string, first: CallbackInput, second: CallbackInput,
                         token1: WhopOAuthTokenResponse, token2: WhopOAuthTokenResponse,
                         viewer: Viewer, productId: string)
    requires WellFormed(first) && WellFormed(second)
    ensures var t1 := Provision(t, hash, first, token1, viewer, productId).tables;
      var t2 := Provision(t1, hash, second, token2, viewer, productId).tables;
      && t2.users == t1.users
      && t2.workspaces == t1.workspaces
      && t2.memberships == t1.memberships
  {
    var t1 := Provision(t, hash, first, token1, viewer, productId).tables;
    ProvisionKeepsAccount(t, hash, first, token1, viewer, productId);
    ProvisionKeepsAccount(t1, hash, second, token2, viewer, productId);
    WriteAccountTwice(t, first, second, viewer, productId);
    var a1 := WriteAccount(t, first, viewer, productId);
    assert t1 == AuthTables(a1.users, a1.workspaces, a1.memberships, t1.sessions);
    assert WriteAccount(t1, second, viewer, productId) == WriteAccount(AuthTables(a1.users, a1.workspaces, a1.memberships, t.sessions), second, viewer, productId);
  }

  /** A returning viewer whose profile or memberships changed upstream, but who lands
      in the same workspace, adds no user, workspace or membership row either: the
      second run updates the rows the first one wrote, under the same ids. */
  lemma ReturningViewerAddsNoRows(t: AuthTables, hash: string -> string, first: CallbackInput, second: CallbackInput,
                                  token1: WhopOAuthTokenResponse, token2: WhopOAuthTokenResponse,
                                  viewer1: Viewer, viewer2: Viewer, productId: string)
    requires WellFormed(first) && WellFormed(second)
    requires viewer2.id == viewer1.id
    requires WorkspaceKey(FindMatch(viewer2.memberships, productId), viewer2.id)
          == WorkspaceKey(FindMatch(viewer1.memberships, productId), viewer1.id)
    ensures var t1 := Provision(t, hash, first, token1, viewer1, productId).tables;
      var t2 := Provision(t1, hash, second, token2, viewer2, productId).tables;
      var key := WorkspaceKey(FindMatch(viewer1.memberships, productId), viewer1.id);
      && t2.users.Keys == t1.users.Keys
      && t2.workspaces.Keys == t1.workspaces.Keys
      && t2.memberships.Keys == t1.memberships.Keys
      && t2.users[viewer1.id] == t1.users[viewer1.id].(email := viewer2.email, name := viewer2.name)
      && t2.workspaces[key].id == t1.workspaces[key].id
  {
    var key := WorkspaceKey(FindMatch(viewer1.memberships, productId), viewer1.id);
    var t1 := Provision(t, hash, first, token1, viewer1, productId).tables;
    ProvisionKeepsAccount(t, hash, first, token1, viewer1, productId);
    ProvisionKeepsAccount(t1, hash, second, token2, viewer2, productId);
    AccountWrites(t, first, viewer1, productId);
    AccountWrites(t1, second, viewer2, productId);
    var a1 := WriteAccount(t, first, viewer1, productId);
    var a2 := WriteAccount(t1, second, viewer2, productId);
    var m2 := FindMatch(viewer2.memberships, productId);
    var u2 := UpsertUser(t1.users, viewer2.id, viewer2.email, viewer2.name, second.newUserId);
    var w2 := UpsertWorkspace(t1.workspaces, key, WorkspaceName(m2), second.newWorkspaceId);
    assert a2.userId == u2.1.id == t1.users[viewer1.id].id == a1.userId;
    assert a2.workspaceId == w2.1.id == t1.workspaces[key].id == a1.workspaceId;
    assert MembershipKey(a2.userId, a2.workspaceId, productId) in t1.memberships;
  }

  /** The same for two whole callbacks: the second, for the same request and the same
      upstream answers, differs from the first only in its clock and generated values. */
  lemma RepeatCallbackAddsNoRows(t: AuthTables, hash: string -> string, first: CallbackInput, second: CallbackInput,
                                 post: TokenEndpoint, api: ApiClient)
    requires WellFormed(first) && WellFormed(second)
    requires second.query == first.query && second.cookies == first.cookies && second.env == first.env
    ensures var t1 := CallbackSpec(t, hash, first, post, api).tables;
      var t2 := CallbackSpec(t1, hash, second, post, api).tables;
      && t2.users.Keys == t1.users.Keys
      && t2.workspaces.Keys == t1.workspaces.Keys
      && t2.memberships.Keys == t1.memberships.Keys
  {
    if ReachesWrites(first, post, api) {
      CallbackWrites(t, hash, first, post, api);
      var t1 := CallbackSpec(t, hash, first, post, api).tables;
      CallbackWrites(t1, hash, second, post, api);
      var code := QueryGet(first.query, "code").value;
      var token := ExchangeWhopCodeForToken(first.env, code, post).value;
      var viewer := FetchWhopViewer(token.accessToken, api).value;
      RepeatAddsNoRows(t, hash, first, second, token, token, viewer, first.env["WHOP_PRODUCT_ID"]);
    }
  }
}
