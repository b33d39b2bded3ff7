/**
  The session store of `lib/auth.ts`: opaque random tokens handed to the browser,
  rows found by the token's hash, lazy expiry, and the membership lookup by its
  composite key. SHA-256 is the store's `hash`; where a property needs it to be
  collision-free, `Injective` says so.
 */
module Auth {
  import opened Wrappers
  import opened Http
  import opened Base64Url
  import opened Store

  const SessionCookieName: string := "sc_session"
  const OAuthStateCookieName: string := "sc_oauth_state"

  datatype AuthContext = AuthContext(userId: string, workspaceId: string)

  ghost predicate Injective(hash: string -> string)
  {
    forall a, b :: hash(a) == hash(b) ==> a == b
  }

  /** `generateToken(n)`: the base64url text of `n` random bytes. */
  function GenerateToken(randomBytes: seq<Byte>): (token: string)
    ensures |token| == (4 * |randomBytes| + 2) / 3
    ensures forall i :: 0 <= i < |token| ==> IsUrlSafe(token[i])
  {
    Encode(randomBytes)
  }

  /** Distinct random bytes never yield the same token. */
  lemma TokensDistinct(a: seq<Byte>, b: seq<Byte>)
    requires a != b
    ensures GenerateToken(a) != GenerateToken(b)
  {
    if GenerateToken(a) == GenerateToken(b) {
      EncodeInjective(a, b);
    }
  }

  /** `getAuthContextFromCookies(cookies)` at instant `now` (milliseconds). */
  function GetAuthContextFromCookies(sessions: map<string, SessionRow>, hash: string -> string,
                                     cookies: map<string, string>, now: int): (r: Option<AuthContext>)
    ensures r.Some? <==> (
      && SessionCookieName in cookies && cookies[SessionCookieName] != ""
      && hash(cookies[SessionCookieName]) in sessions
      && now < sessions[hash(cookies[SessionCookieName])].expiresAt)
    ensures r.Some? ==>
      r.value.userId == sessions[hash(cookies[SessionCookieName])].userId
      && r.value.workspaceId == sessions[hash(cookies[SessionCookieName])].workspaceId
  {
    if SessionCookieName !in cookies || cookies[SessionCookieName] == "" then None
    else
      var tokenHash := hash(cookies[SessionCookieName]);
      if tokenHash !in sessions then None
      else
        var session := sessions[tokenHash];
        if session.expiresAt <= now then None
        else Some(AuthContext(session.userId, session.workspaceId))
  }

  /** `getActiveMembershipStatus({ userId, workspaceId, productId })` */
  function GetActiveMembershipStatus(memberships: map<MembershipKey, MembershipRow>,
                                     userId: string, workspaceId: string, productId: string): (r: Option<string>)
    ensures r.Some? <==> MembershipKey(userId, workspaceId, productId) in memberships
    ensures r.Some? ==> r.value == memberships[MembershipKey(userId, workspaceId, productId)].status
  {
    var key := MembershipKey(userId, workspaceId, productId);
    if key in memberships then Some(memberships[key].status) else None
  }

  /** The insert `createSession` performs: a new row under the token's hash, or the
      unique-key violation when that hash is already taken. */
  function InsertSession(sessions: map<string, SessionRow>, hash: string -> string, token: string,
                         row: SessionRow): (r: Result<map<string, SessionRow>, Fault>)
    ensures r.Success? <==> hash(token) !in sessions
    ensures r.Success? ==> (
      && r.value.Keys == sessions.Keys + {hash(token)} && r.value[hash(token)] == row
      && forall h :: h in sessions ==> r.value[h] == sessions[h])
    ensures r.Failure? ==> r.error == UniqueConstraint("session")
  {
    if hash(token) in sessions then Failure(UniqueConstraint("session"))
    else Success(sessions[hash(token) := row])
  }

  /** `createSession(args)`, with the 32 bytes `generateToken` draws. */
  method CreateSession(db: Db, userId: string, workspaceId: string, expiresAt: int,
                       whopAccessToken: Option<string>, whopAccessTokenExpiresAt: Option<int>,
                       randomBytes: seq<Byte>) returns (r: Result<string, Fault>)
    requires |randomBytes| == 32
    modifies db`sessions
    ensures r.Success? ==> |r.value| == 43 && r.value == GenerateToken(randomBytes)
    ensures var row := SessionRow(userId, workspaceId, expiresAt, whopAccessToken, whopAccessTokenExpiresAt);
      match InsertSession(old(db.sessions), db.hash, GenerateToken(randomBytes), row)
      case Success(tables) => r.Success? && db.sessions == tables
      case Failure(e) => r == Failure(e) && db.sessions == old(db.sessions)
  {
    var token := GenerateToken(randomBytes);
    var row := SessionRow(userId, workspaceId, expiresAt, whopAccessToken, whopAccessTokenExpiresAt);
    match InsertSession(db.sessions, db.hash, token, row)
    case Success(tables) =>
      db.sessions := tables;
      r := Success(token);
    case Failure(e) =>
      r := Failure(e);
  }

  /** `deleteSessionByToken(token)`: the row under the token's hash goes; a missing row
      is not an error. */
  method DeleteSessionByToken(db: Db, token: string)
    modifies db`sessions
    ensures db.sessions == old(db.sessions) - {db.hash(token)}
  {
    db.sessions := db.sessions - {db.hash(token)};
  }

  function SessionCookie(token: string): map<string, string>
  {
    map[SessionCookieName := token]
  }

  /** Right after a session is inserted and before it expires, its token resolves to
      exactly the stored user and workspace. */
  lemma ResolveAfterCreate(sessions: map<string, SessionRow>, hash: string -> string, token: string,
                           row: SessionRow, now: int)
    requires InsertSession(sessions, hash, token, row).Success?
    requires token != "" && now < row.expiresAt
    ensures GetAuthContextFromCookies(InsertSession(sessions, hash, token, row).value, hash, SessionCookie(token), now)
         == Some(AuthContext(row.userId, row.workspaceId))
  {
  }

  /** Under a collision-free hash, inserting a session changes nothing for any other
      token. */
  lemma ResolveOtherToken(sessions: map<string, SessionRow>, hash: string -> string, token: string,
                          row: SessionRow, other: string, now: int)
    requires Injective(hash)
    requires InsertSession(sessions, hash, token, row).Success?
    requires other != token
    ensures GetAuthContextFromCookies(InsertSession(sessions, hash, token, row).value, hash, SessionCookie(other), now)
         == GetAuthContextFromCookies(sessions, hash, SessionCookie(other), now)
  {
    assert hash(other) != hash(token);
  }

  /** A row at or past its expiry instant resolves to nothing, though it stays. */
  lemma ExpiredIsAbsent(sessions: map<string, SessionRow>, hash: string -> string, token: string, now: int)
    requires hash(token) in sessions && sessions[hash(token)].expiresAt <= now
    ensures GetAuthContextFromCookies(sessions, hash, SessionCookie(token), now).None?
  {
  }

  /** Without a cookie, or with an empty one, nothing resolves. */
  lemma NoCookieIsAbsent(sessions: map<string, SessionRow>, hash: string -> string, cookies: map<string, string>, now: int)
    requires SessionCookieName !in cookies || cookies[SessionCookieName] == ""
    ensures GetAuthContextFromCookies(sessions, hash, cookies, now).None?
  {
  }

  /** After deletion the token resolves to nothing; a token whose row was never there
      leaves the table as it was. */
  lemma DeleteThenResolve(sessions: map<string, SessionRow>, hash: string -> string, token: string, now: int)
    ensures GetAuthContextFromCookies(sessions - {hash(token)}, hash, SessionCookie(token), now).None?
    ensures hash(token) !in sessions ==> sessions - {hash(token)} == sessions
  {
  }

  /** Under a collision-free hash, deleting one token's session leaves every other
      token's resolution alone. */
  lemma DeleteKeepsOthers(sessions: map<string, SessionRow>, hash: string -> string, token: string, other: string, now: int)
    requires Injective(hash) && other != token
    ensures GetAuthContextFromCookies(sessions - {hash(token)}, hash, SessionCookie(other), now)
         == GetAuthContextFromCookies(sessions, hash, SessionCookie(other), now)
  {
    assert hash(other) != hash(token);
  }
}
