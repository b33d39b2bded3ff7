/**
  The Whop OAuth client, less its network calls: the authorize URL (section 4.1.1 of
  RFC 6749), the authorization-code token request (section 4.1.3 of RFC 6749), and
  the normalisation of the `/me` and `/memberships` replies into a viewer. Each
  outbound `fetch` is a function from the request to the reply it gets.
 */
module Whop {
  import opened Wrappers
  import opened Json
  import opened Http

  const WhopAuthorizeUrl: string := "https://whop.com/oauth/authorize"
  const WhopTokenUrl: string := "https://whop.com/oauth/token"
  const WhopApiBaseUrl: string := "https://api.whop.com/api/v2"
  const RequestedScopes: string := "identify email memberships businesses"

  /** `buildWhopAuthorizeUrl({ state })` */
  function BuildWhopAuthorizeUrl(env: map<string, string>, state: string): (r: Result<Url, Fault>)
    ensures "WHOP_CLIENT_ID" !in env ==> r == Failure(MissingEnv("WHOP_CLIENT_ID"))
    ensures "WHOP_CLIENT_ID" in env && "WHOP_REDIRECT_URI" !in env ==> r == Failure(MissingEnv("WHOP_REDIRECT_URI"))
    ensures "WHOP_CLIENT_ID" in env && "WHOP_REDIRECT_URI" in env ==>
      r == Success(Url(WhopAuthorizeUrl, [
        ("client_id", env["WHOP_CLIENT_ID"]),
        ("redirect_uri", env["WHOP_REDIRECT_URI"]),
        ("response_type", "code"),
        ("state", state),
        ("scope", RequestedScopes)]))
  {
    match RequireEnv(env, "WHOP_CLIENT_ID")
    case Failure(e) => Failure(e)
    case Success(clientId) =>
      match RequireEnv(env, "WHOP_REDIRECT_URI")
      case Failure(e) => Failure(e)
      case Success(redirectUri) =>
        var q1 := SetParam([], "client_id", clientId);
        assert q1 == [("client_id", clientId)];
        var q2 := SetParam(q1, "redirect_uri", redirectUri);
        assert q2 == q1 + [("redirect_uri", redirectUri)];
        var q3 := SetParam(q2, "response_type", "code");
        assert q3 == q2 + [("response_type", "code")];
        var q4 := SetParam(q3, "state", state);
        assert q4 == q3 + [("state", state)];
        var q5 := SetParam(q4, "scope", RequestedScopes);
        assert q5 == q4 + [("scope", RequestedScopes)];
        assert q5 == [("client_id", clientId), ("redirect_uri", redirectUri), ("response_type", "code"),
                      ("state", state), ("scope", RequestedScopes)];
        Success(Url(WhopAuthorizeUrl, q5))
  }

  /** The form body `exchangeWhopCodeForToken` posts. */
  function TokenRequestForm(clientId: string, clientSecret: string, redirectUri: string, code: string): (form: Query)
    ensures form == [
      ("grant_type", "authorization_code"),
      ("client_id", clientId),
      ("client_secret", clientSecret),
      ("redirect_uri", redirectUri),
      ("code", code)]
  {
    var b1 := SetParam([], "grant_type", "authorization_code");
    assert b1 == [("grant_type", "authorization_code")];
    var b2 := SetParam(b1, "client_id", clientId);
    assert b2 == b1 + [("client_id", clientId)];
    var b3 := SetParam(b2, "client_secret", clientSecret);
    assert b3 == b2 + [("client_secret", clientSecret)];
    var b4 := SetParam(b3, "redirect_uri", redirectUri);
    assert b4 == b3 + [("redirect_uri", redirectUri)];
    var b5 := SetParam(b4, "code", code);
    assert b5 == b4 + [("code", code)];
    b5
  }

  /** The token endpoint's JSON, in the shape the code declares for it. */
  datatype WhopOAuthTokenResponse = WhopOAuthTokenResponse(accessToken: string, expiresIn: JsValue)

  /** A reply of the token endpoint; `body` is None when `res.json()` throws. */
  datatype TokenReply = TokenReply(status: int, text: string, body: Option<WhopOAuthTokenResponse>)

  /** The token endpoint: the form posted to it, and what comes back. */
  type TokenEndpoint = Query -> TokenReply

  /** `exchangeWhopCodeForToken({ code })` */
  function ExchangeWhopCodeForToken(env: map<string, string>, code: string, post: TokenEndpoint): (r: Result<WhopOAuthTokenResponse, Fault>)
    ensures r.Success? ==> (
      && "WHOP_CLIENT_ID" in env && "WHOP_CLIENT_SECRET" in env && "WHOP_REDIRECT_URI" in env
      && var reply := post(TokenRequestForm(env["WHOP_CLIENT_ID"], env["WHOP_CLIENT_SECRET"], env["WHOP_REDIRECT_URI"], code));
         IsOk(reply.status) && reply.body == Some(r.value))
    ensures (
      && "WHOP_CLIENT_ID" in env && "WHOP_CLIENT_SECRET" in env && "WHOP_REDIRECT_URI" in env
      && var reply := post(TokenRequestForm(env["WHOP_CLIENT_ID"], env["WHOP_CLIENT_SECRET"], env["WHOP_REDIRECT_URI"], code));
         !IsOk(reply.status))
      ==> r.Failure? && r.error.UpstreamFailed?
          && r.error.status == post(TokenRequestForm(env["WHOP_CLIENT_ID"], env["WHOP_CLIENT_SECRET"], env["WHOP_REDIRECT_URI"], code)).status
    // an ok reply: its JSON body, or the parse failure when there is none
    ensures (
      && "WHOP_CLIENT_ID" in env && "WHOP_CLIENT_SECRET" in env && "WHOP_REDIRECT_URI" in env
      && var reply := post(TokenRequestForm(env["WHOP_CLIENT_ID"], env["WHOP_CLIENT_SECRET"], env["WHOP_REDIRECT_URI"], code));
         IsOk(reply.status))
      ==> r == (var reply := post(TokenRequestForm(env["WHOP_CLIENT_ID"], env["WHOP_CLIENT_SECRET"], env["WHOP_REDIRECT_URI"], code));
                if reply.body.Some? then Success(reply.body.value) else Failure(InvalidJson))
    // the variables are required in this order, before anything is posted
    ensures "WHOP_CLIENT_ID" !in env ==> r == Failure(MissingEnv("WHOP_CLIENT_ID"))
    ensures "WHOP_CLIENT_ID" in env && "WHOP_CLIENT_SECRET" !in env ==> r == Failure(MissingEnv("WHOP_CLIENT_SECRET"))
    ensures "WHOP_CLIENT_ID" in env && "WHOP_CLIENT_SECRET" in env && "WHOP_REDIRECT_URI" !in env
      ==> r == Failure(MissingEnv("WHOP_REDIRECT_URI"))
  {
    match RequireEnv(env, "WHOP_CLIENT_ID")
    case Failure(e) => Failure(e)
    case Success(clientId) =>
      match RequireEnv(env, "WHOP_CLIENT_SECRET")
      case Failure(e) => Failure(e)
      case Success(clientSecret) =>
        match RequireEnv(env, "WHOP_REDIRECT_URI")
        case Failure(e) => Failure(e)
        case Success(redirectUri) =>
          var reply := post(TokenRequestForm(clientId, clientSecret, redirectUri, code));
          if !IsOk(reply.status) then Failure(UpstreamFailed(WhopTokenUrl, reply.status, reply.text))
          else if reply.body.None? then Failure(InvalidJson)
          else Success(reply.body.value)
  }

  datatype Business = Business(id: string, name: Option<string>)

  datatype ViewerMembership = ViewerMembership(
    id: string,
    status: string,
    productId: Option<string>,
    business: Option<Business>)

  datatype Viewer = Viewer(
    id: string,
    email: Option<string>,
    name: Option<string>,
    memberships: seq<ViewerMembership>)

  /** The Whop API: a GET of the URL with the given Authorization header. */
  type ApiClient = (string, string) -> Reply

  /** `a ?? b ?? ... ?? null`: the first entry that is neither null nor undefined. */
  function FirstDefined(values: seq<JsValue>): (r: JsValue)
    ensures (forall i :: 0 <= i < |values| ==> Nullish(values[i])) ==> r == Null
    ensures !Nullish(r) ==> exists i :: (0 <= i < |values| && values[i] == r
      && forall j :: 0 <= j < i ==> Nullish(values[j]))
    ensures forall i :: (0 <= i < |values| && !Nullish(values[i])
      && (forall j :: 0 <= j < i ==> Nullish(values[j]))) ==> r == values[i]
  {
    if |values| == 0 then Null
    else if !Nullish(values[0]) then values[0]
    else
      var r := FirstDefined(values[1..]);
      assert forall j :: 1 <= j < |values| ==> values[j] == values[1..][j - 1];
      if !Nullish(r) then
        ghost var i :| 0 <= i < |values[1..]| && values[1..][i] == r
          && forall j :: 0 <= j < i ==> Nullish(values[1..][j]);
        assert values[i + 1] == values[1..][i];
        r
      else r
  }

  /** `v ? String(v) : null` */
  function TextOrNull(v: JsValue): Option<string>
  {
    if Truthy(v) then Some(ToJsString(v)) else None
  }

  function BusinessIdOf(m: JsValue): JsValue
  {
    FirstDefined([Get2(m, "business", "id"), Get(m, "business_id"), Get2(m, "workspace", "id"), Get(m, "workspace_id")])
  }

  function BusinessNameOf(m: JsValue): JsValue
  {
    FirstDefined([Get2(m, "business", "name"), Get2(m, "workspace", "name")])
  }

  function ProductIdOf(m: JsValue): JsValue
  {
    FirstDefined([Get2(m, "product", "id"), Get(m, "product_id"), Get(Get2(m, "plan", "product"), "id"),
                  Get2(m, "plan", "product_id"), Get(Get2(m, "plan", "product"), "uuid")])
  }

  /** One entry of the `list.map(...)` in `fetchWhopViewer`. */
  function NormalizeMembership(m: JsValue): (r: ViewerMembership)
    ensures r.id == (if Truthy(Get(m, "id")) then ToJsString(Get(m, "id")) else "")
    ensures r.status == ToJsString(Coalesce(Get(m, "status"), Str("")))
    ensures r.productId.Some? <==> Truthy(ProductIdOf(m))
    ensures r.productId.Some? ==> r.productId.value == ToJsString(ProductIdOf(m))
    ensures r.business.Some? <==> Truthy(BusinessIdOf(m))
    ensures r.business.Some? ==> r.business.value.id == ToJsString(BusinessIdOf(m))
                                 && r.business.value.name == TextOrNull(BusinessNameOf(m))
  {
    var businessId := BusinessIdOf(m);
    ViewerMembership(
      if Truthy(Get(m, "id")) then ToJsString(Get(m, "id")) else "",
      ToJsString(Coalesce(Get(m, "status"), Str(""))),
      TextOrNull(ProductIdOf(m)),
      if Truthy(businessId) then Some(Business(ToJsString(businessId), TextOrNull(BusinessNameOf(m)))) else None)
  }

  /** `list.map(normalise).filter((m) => m.id)` */
  function NormalizeMemberships(list: seq<JsValue>): (r: seq<ViewerMembership>)
    ensures |r| <= |list|
    ensures forall i :: 0 <= i < |r| ==> r[i].id != ""
  {
    if |list| == 0 then []
    else
      var head := NormalizeMembership(list[0]);
      if head.id != "" then [head] + NormalizeMemberships(list[1..]) else NormalizeMemberships(list[1..])
  }

  /** A single entry is kept, normalised, exactly when its id is non-empty. */
  lemma NormalizeSingle(m: JsValue)
    ensures NormalizeMemberships([m]) == if NormalizeMembership(m).id != "" then [NormalizeMembership(m)] else []
  {
    assert [m][1..] == [];
  }

  /** The filter keeps order: normalising a concatenation concatenates the results. */
  lemma {:induction false} NormalizeAppend(a: seq<JsValue>, b: seq<JsValue>)
    ensures NormalizeMemberships(a + b) == NormalizeMemberships(a) + NormalizeMemberships(b)
  {
    if |a| > 0 {
      assert (a + b)[1..] == a[1..] + b;
      NormalizeAppend(a[1..], b);
    } else {
      assert a + b == b;
    }
  }

  /** `Array.isArray(raw) ? raw : Array.isArray(raw?.items) ? raw.items :
      Array.isArray(raw?.memberships) ? raw.memberships : []` */
  function MembershipList(raw: JsValue): (list: seq<JsValue>)
    ensures raw.Arr? ==> list == raw.items
    ensures !raw.Arr? && Get(raw, "items").Arr? ==> list == Get(raw, "items").items
    ensures !raw.Arr? && !Get(raw, "items").Arr? && Get(raw, "memberships").Arr? ==> list == Get(raw, "memberships").items
    ensures !raw.Arr? && !Get(raw, "items").Arr? && !Get(raw, "memberships").Arr? ==> list == []
  {
    if raw.Arr? then raw.items
    else if Get(raw, "items").Arr? then Get(raw, "items").items
    else if Get(raw, "memberships").Arr? then Get(raw, "memberships").items
    else []
  }

  /** `json?.data ?? json` */
  function Unwrap(json: JsValue): JsValue
  {
    Coalesce(Get(json, "data"), json)
  }

  /** `fetchWhopViewer(accessToken)` */
  function FetchWhopViewer(accessToken: string, api: ApiClient): (r: Result<Viewer, Fault>)
    ensures r.Success? ==> (
      && var me := api(WhopApiBaseUrl + "/me", "Bearer " + accessToken);
      && var list := api(WhopApiBaseUrl + "/memberships", "Bearer " + accessToken);
      && IsOk(me.status) && me.json.Some? && Truthy(Get(Unwrap(me.json.value), "id"))
      && IsOk(list.status) && list.json.Some?
      && r.value.id == ToJsString(Get(Unwrap(me.json.value), "id"))
      && r.value.email == TextOrNull(Get(Unwrap(me.json.value), "email"))
      && r.value.name == TextOrNull(Get(Unwrap(me.json.value), "name"))
      && r.value.memberships == NormalizeMemberships(MembershipList(Unwrap(list.json.value))))
    ensures !IsOk(api(WhopApiBaseUrl + "/me", "Bearer " + accessToken).status) ==> r.Failure? && r.error.UpstreamFailed?
    ensures (
      && var me := api(WhopApiBaseUrl + "/me", "Bearer " + accessToken);
         IsOk(me.status) && me.json.Some? && !Truthy(Get(Unwrap(me.json.value), "id")))
      ==> r == Failure(UpstreamMissingId)
    ensures (
      && var me := api(WhopApiBaseUrl + "/me", "Bearer " + accessToken);
         IsOk(me.status) && me.json.None?)
      ==> r == Failure(InvalidJson)
    // once `/me` has given an id, the `/memberships` reply decides
    ensures (
      && var me := api(WhopApiBaseUrl + "/me", "Bearer " + accessToken);
      && var list := api(WhopApiBaseUrl + "/memberships", "Bearer " + accessToken);
      && IsOk(me.status) && me.json.Some? && Truthy(Get(Unwrap(me.json.value), "id")))
      ==> (var list := api(WhopApiBaseUrl + "/memberships", "Bearer " + accessToken);
           && (!IsOk(list.status) ==> r == Failure(UpstreamFailed(WhopApiBaseUrl + "/memberships", list.status, list.text)))
           && (IsOk(list.status) && list.json.None? ==> r == Failure(InvalidJson))
           && (IsOk(list.status) && list.json.Some? ==> r.Success?))
  {
    var authorization := "Bearer " + accessToken;
    var meRes := api(WhopApiBaseUrl + "/me", authorization);
    if !IsOk(meRes.status) then Failure(UpstreamFailed(WhopApiBaseUrl + "/me", meRes.status, meRes.text))
    else if meRes.json.None? then Failure(InvalidJson)
    else
      var me := Unwrap(meRes.json.value);
      if !Truthy(Get(me, "id")) then Failure(UpstreamMissingId)
      else
        var listRes := api(WhopApiBaseUrl + "/memberships", authorization);
        if !IsOk(listRes.status) then Failure(UpstreamFailed(WhopApiBaseUrl + "/memberships", listRes.status, listRes.text))
        else if listRes.json.None? then Failure(InvalidJson)
        else
          Success(Viewer(
            ToJsString(Get(me, "id")),
            TextOrNull(Get(me, "email")),
            TextOrNull(Get(me, "name")),
            NormalizeMemberships(MembershipList(Unwrap(listRes.json.value)))))
  }

  /** The profile is the `data` member when it is set, otherwise the whole body. */
  lemma UnwrapData(json: JsValue)
    ensures !Nullish(Get(json, "data")) ==> Unwrap(json) == Get(json, "data")
    ensures Nullish(Get(json, "data")) ==> Unwrap(json) == json
  {
  }

  /** An entry whose business id is given only as `workspace_id` still gets a business. */
  lemma WorkspaceIdFallback(m: JsValue, w: string)
    requires m.Obj? && "workspace_id" in m.fields && m.fields["workspace_id"] == Str(w) && w != ""
    requires forall k :: k in m.fields ==> k !in {"business", "business_id", "workspace"}
    ensures NormalizeMembership(m).business == Some(Business(w, None))
  {
    assert Get(m, "business") == Undefined && Get(m, "workspace") == Undefined;
    assert Get(m, "business_id") == Undefined;
    var cands := [Get2(m, "business", "id"), Get(m, "business_id"), Get2(m, "workspace", "id"), Get(m, "workspace_id")];
    assert cands == [Undefined, Undefined, Undefined, Str(w)];
    assert cands[1..][1..][1..] == [Str(w)];
    assert FirstDefined(cands[1..][1..][1..]) == Str(w);
    assert FirstDefined(cands[1..][1..]) == Str(w);
    assert FirstDefined(cands[1..]) == Str(w);
    assert BusinessIdOf(m) == Str(w);
    assert BusinessNameOf(m) == Null by {
      var names := [Get2(m, "business", "name"), Get2(m, "workspace", "name")];
      assert names[1..][1..] == [];
    }
  }
}
