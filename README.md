# Sign-in, tenant resolution and request gating for a Whop-integrated dashboard

This project models the core of a Next.js application that sells access to a
dashboard through Whop. It covers:

- **Token gating at the edge.** `middleware.ts` finds a Whop app JWT in a cookie, a header alias, an
  `Authorization: Bearer` header or a query alias. It verifies the JWT with
  `lib/whopAppAuth.ts`. It then either forwards the request with the trusted
  `x-sc-*` tenant headers, or rejects it: 401 JSON on `/api/` paths, otherwise a redirect to
  `/login`. Setting a header follows the Fetch standard's `Headers.set`: it trims HTTP whitespace
  from the value, and it throws on a NUL, CR or LF or on a non-byte character. When it throws, the
  request takes the rejection path.
- **The Whop OAuth sign-in.** `app/api/auth/whop/route.ts` issues a random `state`, stores it in a
  ten-minute cookie and redirects to Whop's authorize URL. `app/api/auth/whop/callback/route.ts`
  checks the state. It then exchanges the code (`lib/whop.ts`), normalises the viewer and their
  memberships, and looks for the first active membership of the configured product that names a
  business. It upserts the user, the workspace (the business, or `personal_<viewer id>`) and the
  membership. Finally it creates a thirty-day session (`lib/auth.ts`: a random base64url token
  whose SHA-256 hash is the key) and redirects to `/dashboard` or `/no-access`.
- **The dashboard guard.** `app/dashboard/layout.tsx` resolves the session cookie and looks up the
  membership. It renders the page only when the status, lower-cased, is `active`.
- **The remaining handlers.** The failed-payment webhook (shared-secret check, company upsert,
  payment insert), the payments API (GET by id, PATCH of the status) and the password login.

Layout: one module per source file, plus small supporting modules.

- `Wrappers`: Option and Result.
- `Json`: JavaScript values with `undefined` and `null` kept apart, and truthiness, `??`, `||`,
  `?.` and `String()`.
- `Text`: ASCII lower-casing, ECMAScript `trim` and `split`.
- `Base64Url`: the unpadded URL-safe alphabet of section 5 of RFC 4648, with a proved round trip.
- `Http`: `URLSearchParams`, cookies, responses, `requireEnv`.
- `Store`: the database rows, and a `Db` class whose map fields are the tables.

Handlers that write to the database are methods that take a `Db` and change only
the table fields they name. Each is proved equal to a pure specification function: `CallbackSpec`, `Provision`, `WebhookSpec`, `PatchSpec`. The
properties are then proved about those functions.

Passed in as parameters:

- the outside world: environment variables (a map), the clock (milliseconds), the production
  flag, and the random bytes and fresh row ids;
- the HTTP endpoints (`TokenEndpoint`, `ApiClient`) and the JWT signature check
  (`JwtVerifier`), each as a function;
- SHA-256, as a function hash; injectivity is assumed only where a lemma needs it.

## Model

| member | source | states |
|---|---|---|
| WhopAppAuth.PickString | lib/whopAppAuth.ts:12-18 | None iff no key holds a non-empty string; otherwise a non-empty value held under one of the keys |
| WhopAppAuth.FirstTextWins | lib/whopAppAuth.ts:13-16 | the first key, in list order, that holds a non-empty string decides the result |
| WhopAppAuth.CompanyIdBeatsCamelCase | lib/whopAppAuth.ts:29 | `company_id` wins over `companyId` when both are present |
| WhopAppAuth.RepeatedKeyIgnored | lib/whopAppAuth.ts:12-18 | appending a key already listed (or one holding no text) does not change the pick |
| WhopAppAuth.CompanyAliasesRepeat | lib/whopAppAuth.ts:29 | the doubled `company` alias behaves as the three-alias list |
| WhopAppAuth.AnyAliasSpelling | lib/whopAppAuth.ts:29-36 | a claim under any one alias, with the others absent, is found |
| WhopAppAuth.VerifyWhopAppJwt | lib/whopAppAuth.ts:20-43 | a missing or empty secret fails first; a rejected signature fails; success iff the secret is set, the signature verifies and all three claims are found, carrying those claims; missing claims iff some pick is None |
| WhopAppAuth.SecretCheckedFirst | lib/whopAppAuth.ts:21-24 | without a secret the verifier is never consulted: any two verifiers give the same MissingSecret failure |
| Middleware.FirstHeader | middleware.ts:15-18 | None iff no alias header is present; otherwise the value of the first present alias |
| Middleware.FirstParam | middleware.ts:28-31 | None iff no alias query parameter is present; otherwise the first present one's value |
| Middleware.BearerToken | middleware.ts:20-26 | a token only when the header's first space-separated word is `bearer` in any case and the second word is non-empty; None in every other case |
| Middleware.FirstUsable | middleware.ts:35 | the `\|\|` chain: None iff no carrier holds a non-empty token; otherwise the earliest usable carrier |
| Middleware.SelectTokenIsFirstUsable | middleware.ts:33-35 | the token is the first usable of cookie, header alias, bearer, query alias, in that order |
| Middleware.EmptyHeaderAliasHides | middleware.ts:15-18 | an empty `x-whop-jwt` stops the `??` chain, so later header aliases are never read |
| Middleware.EmptyCookieSkipped | middleware.ts:35 | an empty cookie falls through to the header alias |
| Middleware.Gate | middleware.ts:12-74 | no token: 401 JSON on `/api/` paths, otherwise a redirect to `/login`; verified, with claims every header accepts: pass-through with the three `x-sc-*` headers set to the normalised claims, and the JWT cookie set only when it did not come from the cookie; verification failure, or a claim that makes `Headers.set` throw: 401 or a redirect that deletes the cookie |
| Middleware.TrustedHeaders | middleware.ts:47-50 | present iff all three claims are valid header values; then the inbound headers plus the three `x-sc-*` headers holding the normalised claims, every other header unchanged |
| Middleware.GateForwardsBareClaims | middleware.ts:44-52 | claims that are valid header values with no surrounding whitespace are forwarded exactly as verified |
| Middleware.GateRejectsNulClaim | middleware.ts:44-72 | a verified user id holding a NUL makes the header set throw, so the request gets the 401 or the redirect that deletes the cookie |
| Middleware.InboundTrustedHeadersIgnored | middleware.ts:47-50 | forged inbound `x-sc-*` headers never change the forwarded request or the answer |
| Middleware.TrustedHeadersOverwrite | middleware.ts:47-50 | the trusted headers overwrite whatever the client sent under those names |
| Middleware.GateDependsOn | middleware.ts:35-73 | the answer depends only on the selected token, the cookie token, the path and the forwarded headers |
| Middleware.IsApiPath | middleware.ts:8-10 | defines an API path as one that starts with `/api/` |
| Middleware.HeaderToken | middleware.ts:15-18 | defines the header token as the `??` chain over `x-whop-jwt`, `x-whop-auth` and `x-whop-token` |
| Middleware.SelectToken | middleware.ts:33-35 | defines the token as cookie `\|\|` header alias `\|\|` bearer `\|\|` query alias |
| Middleware.Reject | middleware.ts:66-72 | defines the rejection: 401 `Unauthorized` JSON on API paths, otherwise a redirect to `/login`, with the given cookie changes |
| Middleware.FirstHeaderAgrees | middleware.ts:15-18 | two header maps that agree on the alias names give the same header token |
| Middleware.NoTokenOnApiPath | middleware.ts:37-40 | an API path without a token gets exactly `{error: "Unauthorized"}` with 401 |
| Auth.GenerateToken | lib/auth.ts:18-20 | the token is the unpadded base64url text of the bytes: ceil(4n/3) URL-safe characters |
| Auth.TokensDistinct | lib/auth.ts:18-20 | different random bytes give different tokens |
| Base64Url.Encode | lib/auth.ts:19 | length ceil(4n/3); every character in the URL-safe alphabet |
| Base64Url.DecodeEncode | lib/auth.ts:19 | decoding the encoding gives the bytes back |
| Base64Url.EncodeInjective | lib/auth.ts:19 | the encoding of bytes is injective |
| Auth.GetAuthContextFromCookies | lib/auth.ts:26-43 | a context iff the cookie is non-empty, its hash names a session, and the session has not expired (`expiresAt <= now` is expired); the context is that session's user and workspace |
| Auth.GetActiveMembershipStatus | lib/auth.ts:45-61 | Some iff the (user, workspace, product) key is present, carrying that row's status |
| Auth.InsertSession | lib/auth.ts:73-82 | succeeds iff the token's hash is not yet a key, adding exactly that row; otherwise the unique-key fault |
| Auth.CreateSession | lib/auth.ts:63-85 | the token is GenerateToken of the bytes (43 characters for 32 bytes); the sessions table gains the row under the token's hash, or is unchanged with the unique-key fault |
| Auth.DeleteSessionByToken | lib/auth.ts:87-92 | removes the row under the token's hash and nothing else; a missing row is no error |
| Auth.ResolveAfterCreate | lib/auth.ts:26-43 | a session just inserted resolves, before its expiry, to its own user and workspace |
| Auth.ResolveOtherToken | lib/auth.ts:26-43 | inserting a session does not change what any other token resolves to |
| Auth.ExpiredIsAbsent | lib/auth.ts:40 | an expired session resolves to nothing |
| Auth.NoCookieIsAbsent | lib/auth.ts:29-30 | a missing or empty cookie resolves to nothing |
| Auth.DeleteThenResolve | lib/auth.ts:87-92 | after deletion the token resolves to nothing; deleting a missing token changes nothing |
| Auth.DeleteKeepsOthers | lib/auth.ts:87-92 | deleting one token leaves every other token's resolution as it was |
| Whop.BuildWhopAuthorizeUrl | lib/whop.ts:15-30 | missing client id or redirect uri gives that variable's fault, checked in that order; otherwise the authorize URL whose query holds client_id, redirect_uri, response_type=code, state and scope, in that order |
| Whop.TokenRequestForm | lib/whop.ts:39-44 | the form is the five fields grant_type, client_id, client_secret, redirect_uri and code, in order |
| Whop.ExchangeWhopCodeForToken | lib/whop.ts:32-59 | client id, client secret and redirect uri are required in that order, each absence giving its own fault; with all three set, the form is posted; a non-2xx answer is an upstream failure carrying its status; a 2xx answer returns its JSON body, or the parse failure when it has none |
| Whop.FirstDefined | lib/whop.ts:110-120 | the `??` chain: null when every candidate is nullish; otherwise exactly the first non-nullish candidate |
| Whop.NormalizeMembership | lib/whop.ts:109-127 | id is String(id) when truthy and "" otherwise; status is String(status ?? ""); product and business are present iff their `??` chains are truthy, and their ids are String() of those chains; the business name is String() of its chain when truthy |
| Whop.NormalizeMemberships | lib/whop.ts:108-129 | never longer than the list; every kept membership has a non-empty id |
| Whop.NormalizeSingle | lib/whop.ts:129 | a one-element list keeps its normalised element iff its id is non-empty |
| Whop.NormalizeAppend | lib/whop.ts:108-129 | map-then-filter distributes over concatenation, so order is kept |
| Whop.MembershipList | lib/whop.ts:100-106 | an array itself, else its `items` array, else its `memberships` array, else the empty list |
| Whop.Unwrap | lib/whop.ts:86 | defines the profile as `json?.data ?? json` |
| Whop.UnwrapData | lib/whop.ts:85-86 | `data` is used when not nullish; otherwise the whole body |
| Whop.WorkspaceIdFallback | lib/whop.ts:110-111 | a bare `workspace_id` still yields the business, with no name |
| Whop.FetchWhopViewer | lib/whop.ts:73-137 | a non-2xx `/me` is an upstream failure; unparsable JSON is the parse failure; a falsy id is the missing-id failure; once `/me` has given an id, a non-2xx `/memberships` is its upstream failure, and a 2xx JSON reply succeeds; success carries String(id), email and name only when truthy, and the normalised membership list |
| Http.QueryGet | app/api/auth/whop/callback/route.ts:22-23 | None iff no parameter has the name; otherwise the value of the first pair with that name |
| Http.RemoveName | lib/whop.ts:20-27 | removes every pair with the name and keeps the lookup of every other name |
| Http.ReplaceFirst | lib/whop.ts:20-27 | the name now reads the new value; other names read as before |
| Http.SetParam | lib/whop.ts:20-27 | setting a new name appends it at the end |
| Http.SetParamGet | lib/whop.ts:20-27 | after `set` the name reads the new value and every other name reads as before |
| Http.QueryGetAppend | lib/whop.ts:20-27 | appending a pair shadows only its own name, and only when that name was absent |
| Http.LeadingHttpSpace | middleware.ts:48-50 | the length of the opening run of HTTP whitespace (tab, LF, CR, space) |
| Http.TrailingHttpSpace | middleware.ts:48-50 | where the closing run of HTTP whitespace begins |
| Http.NormalizeHeaderValue | middleware.ts:48-50 | the value `Headers.set` stores: the opening whitespace run is cut, only whitespace follows the result, and the result neither starts nor ends with whitespace |
| Http.NormalizeHeaderValueBare | middleware.ts:48-50 | a value without whitespace at either end is already normal |
| Http.NormalizeHeaderValueIdempotent | middleware.ts:48-50 | normalising a second time changes nothing |
| Http.HeaderSetValue | middleware.ts:48-50 | stores the normalised value iff it is made of bytes and holds no NUL, CR or LF, otherwise throws (None); a NUL or a character above U+00FF anywhere always throws |
| Http.HeaderSetValueBare | middleware.ts:48-50 | a valid value with no surrounding whitespace is stored as given |
| Http.HeaderSetValueInnerBreak | middleware.ts:48-50 | a CR or LF with other characters on both sides survives the trim and makes the set throw |
| Http.RequireEnv | app/dashboard/layout.tsx:21 | success iff the variable is present, carrying its value; otherwise the missing-variable fault |
| Text.Lower | app/dashboard/layout.tsx:28 | same length; each character lower-cased |
| Text.Trim | app/api/auth/whop/callback/route.ts:17 | defines `trim` as TrimEnd of TrimStart |
| Text.TrimStart | app/api/auth/whop/callback/route.ts:17 | drops exactly the leading white space |
| Text.TrimEnd | app/api/auth/whop/callback/route.ts:17 | drops exactly the trailing white space |
| Text.TrimBare | app/api/auth/whop/callback/route.ts:17 | a string with no white space at its ends trims to itself |
| Text.TrimSpacePadded | app/api/auth/whop/callback/route.ts:17 | padding with a space on each side is undone by trim |
| Text.Split | middleware.ts:23 | at least one part; no part contains the separator |
| Text.JoinSplit | middleware.ts:23 | joining the parts with the separator gives the header back |
| Json.Truthy | lib/whop.ts:123 | defines JavaScript truthiness: undefined, null, false, 0 and "" are falsy |
| Json.Coalesce | lib/whop.ts:86 | defines `a ?? b`: `b` exactly when `a` is null or undefined |
| Json.OrElse | app/api/webhook/failed-payment/route.ts:41 | defines `a \|\| b`: `b` exactly when `a` is falsy |
| Json.ToJsString | lib/whop.ts:122-126 | defines `String(v)`: strings as they are, numbers in decimal, objects as `[object Object]`, arrays joined with commas |
| Json.NatToDecimal | lib/whop.ts:123 | `String()` of a non-negative integer: decimal digits only, no leading zero except for 0 itself, and they read back as the number |
| Json.StringOfStr | lib/whop.ts:132 | String() of a string is the string itself |
| OAuthInitiate.AuthorizeUrlCarriesState | app/api/auth/whop/route.ts:9-10 | the authorize URL's `state` parameter is the state that was generated |
| OAuthInitiate.Initiate | app/api/auth/whop/route.ts:8-22 | success iff both variables are set, else the URL builder's fault; success is a redirect to the authorize URL, with the state in its query and in the single cookie set (http-only, lax, path `/`, ten minutes, secure in production); the state is 32 characters |
| OAuthCallback.IsActiveStatus | app/api/auth/whop/callback/route.ts:16-18 | defines an active status as one that trims and lower-cases to `active` |
| OAuthCallback.StatePasses | app/api/auth/whop/callback/route.ts:28 | defines the state check: code, state and cookie all non-empty, and state equal to the cookie |
| OAuthCallback.UpstreamExpiry | app/api/auth/whop/callback/route.ts:82-85 | defines the upstream token's expiry: now plus `expires_in` seconds when that is a number, else none |
| OAuthCallback.Provision | app/api/auth/whop/callback/route.ts:46-106 | the reference for the writes and the answer: the three upserts, the session insert, then the redirect with its two cookie changes |
| OAuthCallback.CallbackSpec | app/api/auth/whop/callback/route.ts:20-109 | the reference for one callback: the state check, the exchange, the viewer fetch, the product id, then Provision; each failure before the writes leaves the tables as they were |
| OAuthCallback.FindMatch | app/api/auth/whop/callback/route.ts:39-41 | None iff no membership has the product, an active status and a business id; otherwise one that does |
| OAuthCallback.FindMatchIsFirst | app/api/auth/whop/callback/route.ts:39-41 | the match is the first entitling membership in list order |
| OAuthCallback.PaddingIgnored | app/api/auth/whop/callback/route.ts:16-18 | surrounding spaces do not change whether a status is active |
| OAuthCallback.PaddedUpperIsActive | app/api/auth/whop/callback/route.ts:16-18 | `" ACTIVE "` counts as active |
| OAuthCallback.PendingIsNotActive | app/api/auth/whop/callback/route.ts:16-18 | `pending` does not count as active |
| OAuthCallback.EmptyIsNotActive | app/api/auth/whop/callback/route.ts:16-18 | the empty status does not count as active |
| OAuthCallback.UpsertUser | app/api/auth/whop/callback/route.ts:46-50 | the row is keyed by Whop user id; it keeps its existing id or takes the fresh one; email and name are replaced; other users are unchanged |
| OAuthCallback.UpsertWorkspace | app/api/auth/whop/callback/route.ts:52-56 | the row is keyed by business id; it keeps its existing id or takes the fresh one; the name is replaced; other workspaces are unchanged |
| OAuthCallback.UpsertMembership | app/api/auth/whop/callback/route.ts:60-79 | the (user, workspace, product) key gets the status and membership id; other memberships are unchanged |
| OAuthCallback.AccountWrites | app/api/auth/whop/callback/route.ts:43-79 | exactly the viewer's user row, the workspace under the business id (or `personal_<viewer id>` when nothing matched) and the membership change; the status is `active` iff a membership matched |
| OAuthCallback.NoWritesBeforeProvision | app/api/auth/whop/callback/route.ts:28-37 | a missing or mismatched state redirects to `/login`, deletes the state cookie and writes nothing; every failure before the upserts writes nothing |
| OAuthCallback.CallbackWrites | app/api/auth/whop/callback/route.ts:34-37 | once the exchange, the viewer fetch and the product id succeed, the callback is the provisioning of that token and viewer |
| OAuthCallback.WriteAccountDb | app/api/auth/whop/callback/route.ts:46-79 | the three tables become the upserted account |
| OAuthCallback.ProvisionDb | app/api/auth/whop/callback/route.ts:46-106 | the answer and all four tables equal Provision of the old tables |
| OAuthCallback.Callback | app/api/auth/whop/callback/route.ts:20-109 | the answer and all four tables equal CallbackSpec of the old tables and the inputs |
| OAuthCallback.ProvisionAddsOneSession | app/api/auth/whop/callback/route.ts:87-93 | success iff the new token's hash is free; then exactly one session is added and every old one is kept; otherwise the unique-key fault with sessions unchanged |
| OAuthCallback.ProvisionSessionRow | app/api/auth/whop/callback/route.ts:81-93 | the session names the upserted user and workspace; it expires thirty days on; it keeps the access token, with an expiry only when `expires_in` is a number |
| OAuthCallback.ProvisionAnswer | app/api/auth/whop/callback/route.ts:95-106 | the redirect goes to `/dashboard` iff a membership matched, else `/no-access`; it deletes the state cookie and sets the session cookie (the raw 43-character token, http-only, lax, path `/`, the session's expiry, secure in production) |
| OAuthCallback.UpsertUserTwice | app/api/auth/whop/callback/route.ts:46-50 | a second upsert of the same user with the same data changes nothing |
| OAuthCallback.UpsertWorkspaceTwice | app/api/auth/whop/callback/route.ts:52-56 | a second upsert of the same workspace with the same name changes nothing |
| OAuthCallback.ProvisionKeepsAccount | app/api/auth/whop/callback/route.ts:46-93 | provisioning's users, workspaces and memberships are those of the upserts; only sessions differ |
| OAuthCallback.WriteAccountTwice | app/api/auth/whop/callback/route.ts:46-79 | repeating the upserts for the same viewer and product, whatever the fresh ids, leaves the tables as they were |
| OAuthCallback.UpsertsTwice | app/api/auth/whop/callback/route.ts:46-79 | the same, for a fixed matching membership |
| OAuthCallback.ReturningViewerAddsNoRows | app/api/auth/whop/callback/route.ts:46-79 | a returning viewer with the same id and the same workspace key, whatever else changed upstream, adds no user, workspace or membership key; the user row keeps its id and takes the new email and name, and the workspace keeps its id |
| OAuthCallback.RepeatAddsNoRows | app/api/auth/whop/callback/route.ts:46-93 | a second sign-in with an identical viewer leaves users, workspaces and memberships exactly as the first left them |
| OAuthCallback.RepeatCallbackAddsNoRows | app/api/auth/whop/callback/route.ts:20-109 | a repeated callback with the same request and upstream answers adds no user, workspace or membership key |
| Dashboard.LayoutAdmits | app/dashboard/layout.tsx:28 | defines the layout's test: the status, or "" when there is none, lower-cases to `active` |
| Dashboard.DashboardLayout | app/dashboard/layout.tsx:9-33 | no session context redirects to `/login`; a missing product id is a fault; it renders iff the membership's status lower-cases to `active`; everything else redirects to `/no-access` |
| Dashboard.LayoutOfFoundMembership | app/dashboard/layout.tsx:21-30 | with a context and a membership, the layout is decided by that status alone |
| Dashboard.NoMembershipNoAccess | app/dashboard/layout.tsx:28-30 | no membership row redirects to `/no-access` |
| Dashboard.UpperIsAdmitted | app/dashboard/layout.tsx:28 | `ACTIVE` is admitted |
| Dashboard.CapitalIsAdmitted | app/dashboard/layout.tsx:28 | `Active` is admitted |
| Dashboard.WrittenStatuses | app/dashboard/layout.tsx:28 | of the two statuses the callback writes, only `active` is admitted |
| Dashboard.PaddedIsRefused | app/dashboard/layout.tsx:28 | `" active "` is refused, since the layout does not trim |
| Dashboard.AdmittedIsActive | app/dashboard/layout.tsx:28 | every status the layout admits also counts as active in the callback |
| Dashboard.PaddedSplitsTheChecks | app/dashboard/layout.tsx:28 | `" active "` is active to the callback but refused by the layout |
| SignIn.StateRoundTrip | app/api/auth/whop/callback/route.ts:22-32 | the state issued by the initiate handler, returned in the query with the cookie it set, passes the callback's check |
| SignIn.CallbackThenLayout | app/dashboard/layout.tsx:9-33 | after a successful callback, until the session expires, its cookie renders the dashboard iff the callback redirected there; otherwise the layout redirects to `/no-access` |
| SignIn.LandingOpensLayout | app/api/auth/whop/callback/route.ts:95-97 | the same, stated for the provisioning step |
| SignIn.NewSessionResolves | lib/auth.ts:26-43 | the new session cookie resolves to the upserted user and workspace until it expires |
| SignIn.NewMembershipFound | lib/auth.ts:45-61 | the layout's lookup finds the membership row the callback wrote |
| FailedPaymentWebhook.Screen | app/api/webhook/failed-payment/route.ts:11-55 | the checks run in source order: an unset secret is 500; a wrong secret header is 401; an unreadable body is 500; a falsy effective company id is 400 `Missing company_id (or x-whop-company-id header)`; a falsy name, email or product, or a missing amount, is 400 `Missing required fields`; admission iff none of these applies; the admitted fields are the body's, with currency defaulting to `USD` and reason to null |
| FailedPaymentWebhook.EffectiveCompanyId | app/api/webhook/failed-payment/route.ts:40-41 | defines the company id as body `company_id` `\|\|` body `companyId` `\|\|` the `x-whop-company-id` header |
| FailedPaymentWebhook.WebhookSpec | app/api/webhook/failed-payment/route.ts:8-96 | the reference for one webhook call: Screen, then the company upsert and the payment insert, with a payment id clash as the generic 500 |
| FailedPaymentWebhook.UpsertCompany | app/api/webhook/failed-payment/route.ts:57-62 | an existing company is reused unchanged; otherwise one row with the fresh id is added |
| FailedPaymentWebhook.ReceiveFailedPayment | app/api/webhook/failed-payment/route.ts:10-96 | the answer, companies and payments equal WebhookSpec of the old tables |
| FailedPaymentWebhook.UnsetSecretRejectsAll | app/api/webhook/failed-payment/route.ts:11-17 | without a secret, every request gets 500 and nothing is written |
| FailedPaymentWebhook.WritesOnlyWhenAdmitted | app/api/webhook/failed-payment/route.ts:11-62 | a rejected request writes nothing and answers with its rejection; no call changes an existing company or payment |
| FailedPaymentWebhook.AcceptedCreatesOnePayment | app/api/webhook/failed-payment/route.ts:65-88 | an admitted request with a free id adds exactly one payment and answers 201 with its id |
| FailedPaymentWebhook.AcceptedPaymentRow | app/api/webhook/failed-payment/route.ts:65-76 | the new payment carries the admitted fields, the company row's id and status `FAILED`; the company is the existing row or a new one with no name |
| FailedPaymentWebhook.PaymentClashIsInternalError | app/api/webhook/failed-payment/route.ts:89-95 | a payment id clash ends in the generic 500 and adds no payment; the company upsert stays done |
| FailedPaymentWebhook.FalsyAmountPasses | app/api/webhook/failed-payment/route.ts:50-55 | an amount of 0 or null passes the check; only a missing amount is refused |
| FailedPaymentWebhook.CompanyIdPrecedence | app/api/webhook/failed-payment/route.ts:40-48 | body `company_id`, else body `companyId`, else the company header |
| Payments.GetPayment | app/api/payments/route.ts:9-39 | a missing id is 400 `Missing id`; an unknown id is 404 `Not found`; otherwise 200 with the row |
| Payments.PatchSpec | app/api/payments/route.ts:42-67 | the reference for one PATCH: the body read, the id and status checks, then the status update, or the generic 500 for an unknown id |
| Payments.PatchPayment | app/api/payments/route.ts:42-67 | the answer and the payments table equal PatchSpec of the old table |
| Payments.PatchRejections | app/api/payments/route.ts:45-66 | an unreadable body is 500, even without an id; a missing id or a falsy status is 400; none of these, nor an unknown id, writes |
| Payments.PatchUpdatesOnlyStatus | app/api/payments/route.ts:55-60 | a valid patch changes only that payment's status and answers with the updated row |
| Payments.GetAfterPatch | app/api/payments/route.ts:9-67 | a GET after a valid PATCH returns the PATCH's answer |
| Login.Login | app/api/auth/login/route.ts:6-52 | an unreadable body is 500; no password is 400; an unset variable is 500; a mismatch is 401; otherwise 200 with the cookie; the cookie is set iff the password is exactly the configured one |
| Login.MissingPasswordFirst | app/api/auth/login/route.ts:10-15 | a falsy password is 400 before the configuration is read |
| Login.ExactMatchOnly | app/api/auth/login/route.ts:27-32 | the number 1234 does not match the configured text `1234`, by strict equality |

## Left out

- The middleware's `config.matcher` (middleware.ts:4-6) is framework routing. `Gate` is the answer for every path the matcher lets through.
- URL serialisation (`url.toString()`) and `new URL(path, request.url)` are left out. Redirect targets are modelled as an external URL value or a same-origin path.
- The redirect status code that Next.js picks is left out.
- The inbound headers copied by `new Headers(request.headers)` are taken as already valid and normalised, since they arrived as HTTP headers. Only the three claim values go through the `Headers.set` checks.
- JavaScript numbers are modelled as integers only. `parseFloat` of the webhook amount is kept as the received value, and floating point is left out.
- Strings are sequences of Unicode scalar characters, not UTF-16 code units. `toLowerCase` is modelled on ASCII letters only.
- The Prisma schema (`lib/prisma.ts`, not part of this model) and its column type checks are left out. Values are stored as received.
- Generated cuid row ids are inputs. Their uniqueness is not checked, except for payments, whose id clash is modelled.
- `Date.now()` is read twice in the callback. The model reads it once, as one `now`.
- The token endpoint's body is taken in its declared shape: an `access_token` string and any `expires_in` value.
- The Discord notification (`lib/discord.ts`) catches its own errors and returns nothing, so it never changes the webhook's answer or writes. It is left out.
- `app/api/auth/logout`, `app/api/auth/check`, `app/api/seed` and `app/api/payments/[id]` are not part of this model, and neither are the page components.
- The text of error `details` and of upstream error messages is left out. Only the fault kind is kept.
- Concurrent requests and the atomicity of upserts are left out. Each handler runs alone against the tables.
- The JWT signature check (jose's `jwtVerify`) is a function parameter that answers with a payload or a rejection. Expiry and algorithm checks live inside it.
- SHA-256 is a function parameter. Collision resistance is assumed, as `Injective`, only by the lemmas that need it.
- `lib/env.ts` is not part of this model. `requireEnv` fails when the variable is absent, and treats a present empty value as set.
- The `runtime` and `dynamic` exports are left out. The request and response objects appear only through the fields the handlers read.
- The timestamp columns of the payment JSON (`createdAt`, `updatedAt`) are left out.
- RepeatCallbackAddsNoRows: stated only for a second callback with the same query, cookies and environment, and for the same upstream answers. A different request can reach a different viewer.
- NormalizeMemberships: its own contract states only the length bound and the non-empty ids. What it keeps, and in what order, is stated by NormalizeSingle and NormalizeAppend.
