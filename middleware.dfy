/**
  The edge gatekeeper: picks the platform token from the request's carriers, verifies
  it, and either passes the request on with three trusted identity headers or turns
  it away (401 JSON on API paths, a redirect to /login on pages).
 */
module Middleware {
  import opened Wrappers
  import opened Json
  import opened Text
  import opened Http
  import opened WhopAppAuth

  /** The request parts the gatekeeper reads. Header names are lower-case, as
      `Headers.get` compares them without case; `query` is the search-parameter list. */
  datatype EdgeRequest = EdgeRequest(
    pathname: string,
    headers: map<string, string>,
    cookies: map<string, string>,
    query: Query)

  const HeaderAliases: seq<string> := ["x-whop-jwt", "x-whop-auth", "x-whop-token"]
  const QueryAliases: seq<string> := ["whop_jwt", "whopJwt", "token"]

  const CompanyHeader: string := "x-sc-company-id"
  const UserHeader: string := "x-sc-user-id"
  const MembershipHeader: string := "x-sc-membership-id"

  /** `isApiPath` */
  predicate IsApiPath(pathname: string)
  {
    StartsWith(pathname, "/api/")
  }

  /** A carrier's value counts only when it is a non-empty string (`||`). */
  predicate Usable(v: Option<string>)
  {
    v.Some? && v.value != ""
  }

  /** `get(a) ?? get(b) ?? ...` over headers: the first alias present, even if empty. */
  function FirstHeader(headers: map<string, string>, names: seq<string>): (r: Option<string>)
    ensures r.None? <==> forall i :: 0 <= i < |names| ==> names[i] !in headers
    ensures r.Some? ==> exists i :: (0 <= i < |names| && names[i] in headers
      && headers[names[i]] == r.value && forall j :: 0 <= j < i ==> names[j] !in headers)
  {
    if |names| == 0 then None
    else if names[0] in headers then Some(headers[names[0]])
    else
      var r := FirstHeader(headers, names[1..]);
      assert forall j :: 1 <= j < |names| ==> names[j] == names[1..][j - 1];
      if r.Some? then
        ghost var i :| 0 <= i < |names[1..]| && names[1..][i] in headers
          && headers[names[1..][i]] == r.value && forall j :: 0 <= j < i ==> names[1..][j] !in headers;
        assert names[i + 1] == names[1..][i];
        r
      else r
  }

  /** The same `??` chain over the search parameters. */
  function FirstParam(query: Query, names: seq<string>): (r: Option<string>)
    ensures r.None? <==> forall i :: 0 <= i < |names| ==> QueryGet(query, names[i]).None?
    ensures r.Some? ==> exists i :: (0 <= i < |names| && QueryGet(query, names[i]) == r
      && forall j :: 0 <= j < i ==> QueryGet(query, names[j]).None?)
  {
    if |names| == 0 then None
    else if QueryGet(query, names[0]).Some? then QueryGet(query, names[0])
    else
      var r := FirstParam(query, names[1..]);
      assert forall j :: 1 <= j < |names| ==> names[j] == names[1..][j - 1];
      if r.Some? then
        ghost var i :| 0 <= i < |names[1..]| && QueryGet(query, names[1..][i]) == r
          && forall j :: 0 <= j < i ==> QueryGet(query, names[1..][j]).None?;
        assert names[i + 1] == names[1..][i];
        r
      else r
  }

  function CookieToken(req: EdgeRequest): Option<string>
  {
    if WhopJwtCookie in req.cookies then Some(req.cookies[WhopJwtCookie]) else None
  }

  function HeaderToken(req: EdgeRequest): Option<string>
  {
    FirstHeader(req.headers, HeaderAliases)
  }

  function QueryToken(req: EdgeRequest): Option<string>
  {
    FirstParam(req.query, QueryAliases)
  }

  /** The value of an `Authorization: Bearer <token>` header: the header split on single
      spaces, a first field equal to "bearer" in any case, and a non-empty second field. */
  function BearerToken(headers: map<string, string>): (r: Option<string>)
    ensures r.Some? ==> (
      && "authorization" in headers
      && var fields := Split(headers["authorization"], ' ');
         && Lower(fields[0]) == "bearer" && |fields| >= 2 && fields[1] == r.value && r.value != "")
    ensures r.None? ==> (
      || "authorization" !in headers || headers["authorization"] == ""
      || var fields := Split(headers["authorization"], ' ');
         Lower(fields[0]) != "bearer" || |fields| < 2 || fields[1] == "")
  {
    if "authorization" !in headers || headers["authorization"] == "" then None
    else
      var fields := Split(headers["authorization"], ' ');
      if Lower(fields[0]) != "bearer" then None
      else if |fields| >= 2 && fields[1] != "" then Some(fields[1])
      else None
  }

  /** `tokenFromCookie || tokenFromHeader || tokenFromAuthorization || tokenFromQuery` */
  function SelectToken(req: EdgeRequest): Option<string>
  {
    var cookie, header, bearer, query := CookieToken(req), HeaderToken(req), BearerToken(req.headers), QueryToken(req);
    if Usable(cookie) then cookie
    else if Usable(header) then header
    else if Usable(bearer) then bearer
    else if Usable(query) then query
    else None
  }

  /** The carriers in priority order. */
  function Carriers(req: EdgeRequest): seq<Option<string>>
  {
    [CookieToken(req), HeaderToken(req), BearerToken(req.headers), QueryToken(req)]
  }

  /** A reference for the `||` chain: the first usable entry of an ordered list. */
  function FirstUsable(values: seq<Option<string>>): (r: Option<string>)
    ensures r.None? <==> forall i :: 0 <= i < |values| ==> !Usable(values[i])
    ensures r.Some? ==> exists i :: (0 <= i < |values| && values[i] == r && Usable(r)
      && forall j :: 0 <= j < i ==> !Usable(values[j]))
  {
    if |values| == 0 then None
    else if Usable(values[0]) then values[0]
    else
      var r := FirstUsable(values[1..]);
      assert forall j :: 1 <= j < |values| ==> values[j] == values[1..][j - 1];
      if r.Some? then
        ghost var i :| 0 <= i < |values[1..]| && values[1..][i] == r && Usable(r)
          && forall j :: 0 <= j < i ==> !Usable(values[1..][j]);
        assert values[i + 1] == values[1..][i];
        r
      else r
  }

  /** The token is the first usable carrier: cookie, headers, bearer, query. */
  lemma SelectTokenIsFirstUsable(req: EdgeRequest)
    ensures SelectToken(req) == FirstUsable(Carriers(req))
  {
    var c := Carriers(req);
    assert c[1..][1..][1..][1..] == [];
    assert FirstUsable(c[1..][1..][1..]) == if Usable(c[3]) then c[3] else None;
    assert FirstUsable(c[1..][1..]) == if Usable(c[2]) then c[2] else FirstUsable(c[1..][1..][1..]);
    assert FirstUsable(c[1..]) == if Usable(c[1]) then c[1] else FirstUsable(c[1..][1..]);
  }

  /** Inside the header chain a present but empty earlier alias hides the later ones,
      so the header carrier yields nothing usable. */
  lemma EmptyHeaderAliasHides(req: EdgeRequest)
    requires "x-whop-jwt" in req.headers && req.headers["x-whop-jwt"] == ""
    ensures HeaderToken(req) == Some("") && !Usable(HeaderToken(req))
  {
  }

  /** Across carriers an empty cookie is skipped and a later carrier is used. */
  lemma EmptyCookieSkipped(req: EdgeRequest)
    requires WhopJwtCookie in req.cookies && req.cookies[WhopJwtCookie] == ""
    requires Usable(HeaderToken(req))
    ensures SelectToken(req) == HeaderToken(req)
  {
  }

  /** A rejected request: 401 JSON on API paths, otherwise a redirect to the login page
      carrying the given cookie changes. */
  function Reject(pathname: string, pageCookies: seq<CookieOp>): Response
  {
    if IsApiPath(pathname) then JsonStatus(401, ErrorBody("Unauthorized"))
    else Redirect(SameOrigin("/login"), pageCookies)
  }

  /** The three claims as `Headers.set` takes them: each must be a valid header value. */
  predicate ClaimsFitHeaders(claims: Claims)
  {
    && HeaderSetValue(claims.companyId).Some?
    && HeaderSetValue(claims.userId).Some?
    && HeaderSetValue(claims.membershipId).Some?
  }

  /** A copy of the inbound headers with the three `set` calls applied; None where one
      of them throws. */
  function TrustedHeaders(inbound: map<string, string>, claims: Claims): (r: Option<map<string, string>>)
    ensures r.Some? <==> ClaimsFitHeaders(claims)
    ensures r.Some? ==> (
      && r.value.Keys == inbound.Keys + {CompanyHeader, UserHeader, MembershipHeader}
      && r.value[CompanyHeader] == NormalizeHeaderValue(claims.companyId)
      && r.value[UserHeader] == NormalizeHeaderValue(claims.userId)
      && r.value[MembershipHeader] == NormalizeHeaderValue(claims.membershipId)
      && forall h :: h in inbound && h !in {CompanyHeader, UserHeader, MembershipHeader}
           ==> r.value[h] == inbound[h])
  {
    var company, user, membership :=
      HeaderSetValue(claims.companyId), HeaderSetValue(claims.userId), HeaderSetValue(claims.membershipId);
    if company.None? || user.None? || membership.None? then None
    else Some(inbound[CompanyHeader := company.value][UserHeader := user.value][MembershipHeader := membership.value])
  }

  /** `middleware(request)` */
  function Gate(req: EdgeRequest, secret: Option<string>, jwtVerify: JwtVerifier, isProd: bool): (r: Response)
    // no token on any carrier
    ensures SelectToken(req).None? ==>
      r == if IsApiPath(req.pathname) then JsonReply(401, ErrorBody("Unauthorized"), [])
           else Redirect(SameOrigin("/login"), [])
    // a token that verifies to claims the headers accept: pass on with the normalised
    // claims as the trusted headers
    ensures (&& SelectToken(req).Some? && VerifyWhopAppJwt(secret, jwtVerify, SelectToken(req).value).Success?
             && ClaimsFitHeaders(VerifyWhopAppJwt(secret, jwtVerify, SelectToken(req).value).value)) ==> (
      && var claims := VerifyWhopAppJwt(secret, jwtVerify, SelectToken(req).value).value;
         && r.PassThrough?
         && r.requestHeaders.Keys == req.headers.Keys + {CompanyHeader, UserHeader, MembershipHeader}
         && r.requestHeaders[CompanyHeader] == NormalizeHeaderValue(claims.companyId)
         && r.requestHeaders[UserHeader] == NormalizeHeaderValue(claims.userId)
         && r.requestHeaders[MembershipHeader] == NormalizeHeaderValue(claims.membershipId)
         && (forall h :: h in req.headers && h !in {CompanyHeader, UserHeader, MembershipHeader}
               ==> r.requestHeaders[h] == req.headers[h])
         && r.cookies == if Usable(CookieToken(req)) then []
                         else [SetCookie(WhopJwtCookie, SelectToken(req).value,
                                         CookieOptions(true, isProd, "lax", "/", None, None))])
    // a token that does not verify, or whose claims a header cannot carry
    ensures SelectToken(req).Some? && (
              || VerifyWhopAppJwt(secret, jwtVerify, SelectToken(req).value).Failure?
              || !ClaimsFitHeaders(VerifyWhopAppJwt(secret, jwtVerify, SelectToken(req).value).value)) ==>
      r == if IsApiPath(req.pathname) then JsonReply(401, ErrorBody("Unauthorized"), [])
           else Redirect(SameOrigin("/login"), [DeleteCookie(WhopJwtCookie)])
  {
    var token := SelectToken(req);
    if token.None? then Reject(req.pathname, [])
    else
      match VerifyWhopAppJwt(secret, jwtVerify, token.value)
      case Success(claims) =>
        var headers := TrustedHeaders(req.headers, claims);
        if headers.None? then Reject(req.pathname, [DeleteCookie(WhopJwtCookie)])
        else
          var cookies :=
            if Usable(CookieToken(req)) then []
            else [SetCookie(WhopJwtCookie, token.value, CookieOptions(true, isProd, "lax", "/", None, None))];
          PassThrough(headers.value, cookies)
      case Failure(_) => Reject(req.pathname, [DeleteCookie(WhopJwtCookie)])
  }

  /** Claims that are already bare, valid header values reach the route unchanged. */
  lemma GateForwardsBareClaims(req: EdgeRequest, secret: Option<string>, jwtVerify: JwtVerifier, isProd: bool,
                               claims: Claims)
    requires SelectToken(req).Some? && VerifyWhopAppJwt(secret, jwtVerify, SelectToken(req).value) == Success(claims)
    requires BareHeaderValue(claims.companyId) && BareHeaderValue(claims.userId)
      && BareHeaderValue(claims.membershipId)
    ensures Gate(req, secret, jwtVerify, isProd).PassThrough?
    ensures Gate(req, secret, jwtVerify, isProd).requestHeaders[CompanyHeader] == claims.companyId
    ensures Gate(req, secret, jwtVerify, isProd).requestHeaders[UserHeader] == claims.userId
    ensures Gate(req, secret, jwtVerify, isProd).requestHeaders[MembershipHeader] == claims.membershipId
  {
    HeaderSetValueBare(claims.companyId);
    HeaderSetValueBare(claims.userId);
    HeaderSetValueBare(claims.membershipId);
  }

  /** A claim carrying a NUL makes `Headers.set` throw, and the request is turned away. */
  lemma GateRejectsNulClaim(req: EdgeRequest, secret: Option<string>, jwtVerify: JwtVerifier, isProd: bool, k: nat)
    requires SelectToken(req).Some? && VerifyWhopAppJwt(secret, jwtVerify, SelectToken(req).value).Success?
    requires k < |VerifyWhopAppJwt(secret, jwtVerify, SelectToken(req).value).value.userId|
    requires VerifyWhopAppJwt(secret, jwtVerify, SelectToken(req).value).value.userId[k] == '\0'
    ensures Gate(req, secret, jwtVerify, isProd)
      == if IsApiPath(req.pathname) then JsonReply(401, ErrorBody("Unauthorized"), [])
         else Redirect(SameOrigin("/login"), [DeleteCookie(WhopJwtCookie)])
  {
  }

  /** Trusted headers sent by the client change nothing: two requests that differ only
      in them get the same outcome. */
  lemma InboundTrustedHeadersIgnored(req: EdgeRequest, forged: map<string, string>,
                                     secret: Option<string>, jwtVerify: JwtVerifier, isProd: bool)
    requires forall h :: h in forged ==> h in {CompanyHeader, UserHeader, MembershipHeader}
    requires forall h :: h in req.headers ==> h !in {CompanyHeader, UserHeader, MembershipHeader}
    ensures Gate(req.(headers := req.headers + forged), secret, jwtVerify, isProd) == Gate(req, secret, jwtVerify, isProd)
  {
    var req' := req.(headers := req.headers + forged);
    assert SelectToken(req') == SelectToken(req) by {
      FirstHeaderAgrees(req'.headers, req.headers, HeaderAliases);
      assert "authorization" !in forged;
      assert BearerToken(req'.headers) == BearerToken(req.headers);
    }
    assert CookieToken(req') == CookieToken(req);
    forall claims: Claims ensures TrustedHeaders(req'.headers, claims) == TrustedHeaders(req.headers, claims) {
      TrustedHeadersOverwrite(req.headers, forged, claims);
    }
    GateDependsOn(req', req, secret, jwtVerify, isProd);
  }

  lemma TrustedHeadersOverwrite(inbound: map<string, string>, forged: map<string, string>, claims: Claims)
    requires forall h :: h in forged ==> h in {CompanyHeader, UserHeader, MembershipHeader}
    ensures TrustedHeaders(inbound + forged, claims) == TrustedHeaders(inbound, claims)
  {
    if ClaimsFitHeaders(claims) {
      SetTrustedOverwrites(inbound, forged, HeaderSetValue(claims.companyId).value,
                           HeaderSetValue(claims.userId).value, HeaderSetValue(claims.membershipId).value);
    }
  }

  lemma SetTrustedOverwrites(inbound: map<string, string>, forged: map<string, string>,
                             company: string, user: string, membership: string)
    requires forall h :: h in forged ==> h in {CompanyHeader, UserHeader, MembershipHeader}
    ensures (inbound + forged)[CompanyHeader := company][UserHeader := user][MembershipHeader := membership]
         == inbound[CompanyHeader := company][UserHeader := user][MembershipHeader := membership]
  {
  }

  /** The gate sees the request through its token, its cookie carrier, its path and
      the headers it builds. */
  lemma GateDependsOn(r1: EdgeRequest, r2: EdgeRequest, secret: Option<string>, jwtVerify: JwtVerifier, isProd: bool)
    requires SelectToken(r1) == SelectToken(r2) && CookieToken(r1) == CookieToken(r2) && r1.pathname == r2.pathname
    requires forall claims: Claims :: TrustedHeaders(r1.headers, claims) == TrustedHeaders(r2.headers, claims)
    ensures Gate(r1, secret, jwtVerify, isProd) == Gate(r2, secret, jwtVerify, isProd)
  {
    var token := SelectToken(r1);
    if token.Some? {
      match VerifyWhopAppJwt(secret, jwtVerify, token.value)
      case Success(claims) =>
        assert TrustedHeaders(r1.headers, claims) == TrustedHeaders(r2.headers, claims);
      case Failure(_) =>
    }
  }

  lemma {:induction false} FirstHeaderAgrees(h1: map<string, string>, h2: map<string, string>, names: seq<string>)
    requires forall i :: 0 <= i < |names| ==> (names[i] in h1 <==> names[i] in h2)
    requires forall i :: 0 <= i < |names| && names[i] in h1 ==> h1[names[i]] == h2[names[i]]
    ensures FirstHeader(h1, names) == FirstHeader(h2, names)
  {
    if |names| > 0 {
      assert forall j :: 1 <= j < |names| ==> names[j] == names[1..][j - 1];
      FirstHeaderAgrees(h1, h2, names[1..]);
    }
  }

  /** The unauthorised API reply: no token, an API path, 401 with `{"error":"Unauthorized"}`. */
  lemma NoTokenOnApiPath(req: EdgeRequest, secret: Option<string>, jwtVerify: JwtVerifier, isProd: bool)
    requires SelectToken(req).None? && IsApiPath(req.pathname)
    ensures Gate(req, secret, jwtVerify, isProd) == JsonReply(401, Obj(map["error" := Str("Unauthorized")]), [])
  {
  }
}
