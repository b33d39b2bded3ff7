/** The access gate of the dashboard layout: a resolved session, then the membership
    of the session's user and workspace for the configured product, with a status
    that lower-cases to "active". */
module Dashboard {
  import opened Wrappers
  import opened Text
  import opened Http
  import opened Store
  import opened Auth
  import OAuthCallback

  datatype LayoutResult = RenderChildren | RedirectTo(path: string) | LayoutFault(fault: Fault)

  /** `(membership?.status ?? '').toLowerCase() === 'active'`: case-blind, but no trim. */
  predicate LayoutAdmits(status: Option<string>)
  {
    Lower(if status.Some? then status.value else "") == "active"
  }

  /** `DashboardLayout` at instant `now` with the request's cookies. */
  function DashboardLayout(sessions: map<string, SessionRow>, memberships: map<MembershipKey, MembershipRow>,
                           hash: string -> string, cookies: map<string, string>,
                           env: map<string, string>, now: int): (r: LayoutResult)
    ensures GetAuthContextFromCookies(sessions, hash, cookies, now).None? ==> r == RedirectTo("/login")
    ensures r.LayoutFault? <==>
      GetAuthContextFromCookies(sessions, hash, cookies, now).Some? && "WHOP_PRODUCT_ID" !in env
    ensures r == RenderChildren <==> (
      && GetAuthContextFromCookies(sessions, hash, cookies, now).Some?
      && "WHOP_PRODUCT_ID" in env
      && var ctx := GetAuthContextFromCookies(sessions, hash, cookies, now).value;
      && var key := MembershipKey(ctx.userId, ctx.workspaceId, env["WHOP_PRODUCT_ID"]);
      && key in memberships && Lower(memberships[key].status) == "active")
    ensures r.RenderChildren? || r.LayoutFault? || r == RedirectTo("/login") || r == RedirectTo("/no-access")
  {
    match GetAuthContextFromCookies(sessions, hash, cookies, now)
    case None => RedirectTo("/login")
    case Some(ctx) =>
      match RequireEnv(env, "WHOP_PRODUCT_ID")
      case Failure(e) => LayoutFault(e)
      case Success(productId) =>
        if !LayoutAdmits(GetActiveMembershipStatus(memberships, ctx.userId, ctx.workspaceId, productId)) then
          RedirectTo("/no-access")
        else RenderChildren
  }

  /** Once the session resolves and the membership is found, the status alone decides. */
  lemma LayoutOfFoundMembership(sessions: map<string, SessionRow>, memberships: map<MembershipKey, MembershipRow>,
                                hash: string -> string, cookies: map<string, string>,
                                env: map<string, string>, now: int, ctx: AuthContext, status: string)
    requires GetAuthContextFromCookies(sessions, hash, cookies, now) == Some(ctx) && "WHOP_PRODUCT_ID" in env
    requires GetActiveMembershipStatus(memberships, ctx.userId, ctx.workspaceId, env["WHOP_PRODUCT_ID"]) == Some(status)
    ensures DashboardLayout(sessions, memberships, hash, cookies, env, now)
         == if Lower(status) == "active" then RenderChildren else RedirectTo("/no-access")
  {
  }

  /** A session with no membership row for the product is sent to "/no-access". */
  lemma NoMembershipNoAccess(sessions: map<string, SessionRow>, memberships: map<MembershipKey, MembershipRow>,
                             hash: string -> string, cookies: map<string, string>,
                             env: map<string, string>, now: int)
    requires GetAuthContextFromCookies(sessions, hash, cookies, now).Some? && "WHOP_PRODUCT_ID" in env
    requires var ctx := GetAuthContextFromCookies(sessions, hash, cookies, now).value;
      MembershipKey(ctx.userId, ctx.workspaceId, env["WHOP_PRODUCT_ID"]) !in memberships
    ensures DashboardLayout(sessions, memberships, hash, cookies, env, now) == RedirectTo("/no-access")
  {
    assert |Lower("")| == 0;
  }

  /** "ACTIVE" is admitted. */
  lemma UpperIsAdmitted(status: string)
    requires status == "ACTIVE"
    ensures LayoutAdmits(Some(status))
  {
    assert Lower(status) == "active";
  }

  /** "Active" is admitted. */
  lemma CapitalIsAdmitted(status: string)
    requires status == "Active"
    ensures LayoutAdmits(Some(status))
  {
    assert Lower(status) == "active";
  }

  /** The two statuses the callback writes: "active" is admitted, "inactive" refused. */
  lemma WrittenStatuses(status: string)
    requires status == "active" || status == "inactive"
    ensures LayoutAdmits(Some(status)) <==> status == "active"
  {
    if status == "active" {
      assert Lower(status) == "active";
    } else {
      assert |Lower(status)| == 8;
    }
  }

  /** " active " is refused: the layout does not trim. */
  lemma PaddedIsRefused(status: string)
    requires status == " active "
    ensures !LayoutAdmits(Some(status))
  {
    assert |Lower(status)| == 8;
  }

  /** What the layout admits, the callback's `isActiveStatus` also calls active: only
      letters can lower-case to "active", and trimming leaves letters alone. */
  lemma AdmittedIsActive(status: string)
    requires LayoutAdmits(Some(status))
    ensures OAuthCallback.IsActiveStatus(status)
  {
    var low := Lower(status);
    assert |status| == 6;
    assert low[0] == LowerChar(status[0]) == 'a';
    assert low[5] == LowerChar(status[5]) == 'e';
    assert !IsJsSpace(status[0]) && !IsJsSpace(status[5]);
    TrimBare(status);
  }

  /** The converse fails: " active " is active to the callback and refused here, so a
      padded status the callback stored as a match would not open the dashboard. The
      callback itself always stores "active" or "inactive". */
  lemma PaddedSplitsTheChecks(status: string)
    requires status == " active "
    ensures OAuthCallback.IsActiveStatus(status) && !LayoutAdmits(Some(status))
  {
    var word := "active";
    OAuthCallback.PaddingIgnored(word);
    assert status == [' '] + word + [' '];
    assert Lower(word) == word;
    PaddedIsRefused(status);
  }
}
