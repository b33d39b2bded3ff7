/**
  The platform-token verifier: checks a signed token against the app secret and
  reads the three claims the app needs, each through an ordered list of accepted
  field names. The signature check itself is an oracle `jwtVerify(token, secret)`
  that yields the payload or nothing.
 */
module WhopAppAuth {
  import opened Wrappers
  import opened Json

  /** The decoded JWT payload: claim name to value; a claim not in the map is undefined. */
  type Payload = map<string, JsValue>

  /** The signature check: the payload of a token that verifies under the key, else None. */
  type JwtVerifier = (string, string) -> Option<Payload>

  const WhopJwtCookie: string := "whop_app_jwt"

  const CompanyAliases: seq<string> := ["company_id", "companyId", "company", "company"]
  const UserAliases: seq<string> := ["user_id", "userId", "user"]
  const MembershipAliases: seq<string> := ["membership_id", "membershipId", "membership", "access_id"]

  datatype Claims = Claims(companyId: string, userId: string, membershipId: string, raw: Payload)

  datatype JwtError =
    | MissingSecret       // WHOP_APP_SECRET is unset or empty
    | VerificationFailed  // the signature check rejected the token
    | MissingClaims       // a required claim is absent under every alias

  /** `typeof payload[key] === 'string' && payload[key].length > 0` */
  predicate HasText(payload: Payload, key: string)
  {
    key in payload && payload[key].Str? && payload[key].s != ""
  }

  /** `pickString`: the value of the first listed key that holds a non-empty string. */
  function PickString(payload: Payload, keys: seq<string>): (r: Option<string>)
    ensures r.None? <==> forall i :: 0 <= i < |keys| ==> !HasText(payload, keys[i])
    ensures r.Some? ==> r.value != "" && exists i :: (0 <= i < |keys| && HasText(payload, keys[i])
      && payload[keys[i]] == Str(r.value) && forall j :: 0 <= j < i ==> !HasText(payload, keys[j]))
  {
    if |keys| == 0 then None
    else if HasText(payload, keys[0]) then Some(payload[keys[0]].s)
    else
      var r := PickString(payload, keys[1..]);
      if r.Some? then
        ghost var i :| 0 <= i < |keys[1..]| && HasText(payload, keys[1..][i])
          && payload[keys[1..][i]] == Str(r.value) && forall j :: 0 <= j < i ==> !HasText(payload, keys[1..][j]);
        assert keys[i + 1] == keys[1..][i];
        assert forall j :: 0 <= j < i + 1 ==> !HasText(payload, keys[j]) by {
          forall j | 0 <= j < i + 1 ensures !HasText(payload, keys[j]) {
            if j > 0 { assert keys[j] == keys[1..][j - 1]; }
          }
        }
        r
      else
        assert forall i :: 0 <= i < |keys| ==> !HasText(payload, keys[i]) by {
          forall i | 0 <= i < |keys| ensures !HasText(payload, keys[i]) {
            if i > 0 { assert keys[i] == keys[1..][i - 1]; }
          }
        }
        r
  }

  /** `verifyWhopAppJwt(token)` with the secret read from WHOP_APP_SECRET. */
  function VerifyWhopAppJwt(secret: Option<string>, jwtVerify: JwtVerifier, token: string): (r: Result<Claims, JwtError>)
    ensures secret.None? || secret.value == "" ==> r == Failure(MissingSecret)
    ensures secret.Some? && secret.value != "" && jwtVerify(token, secret.value).None?
      ==> r == Failure(VerificationFailed)
    ensures r.Success? ==> (
      && secret.Some? && jwtVerify(token, secret.value).Some?
      && var payload := jwtVerify(token, secret.value).value;
         && r.value.raw == payload
         && PickString(payload, CompanyAliases) == Some(r.value.companyId)
         && PickString(payload, UserAliases) == Some(r.value.userId)
         && PickString(payload, MembershipAliases) == Some(r.value.membershipId)
         && r.value.companyId != "" && r.value.userId != "" && r.value.membershipId != "")
    ensures r == Failure(MissingClaims) <==> (
      && secret.Some? && secret.value != ""
      && jwtVerify(token, secret.value).Some?
      && var payload := jwtVerify(token, secret.value).value;
         (PickString(payload, CompanyAliases).None? || PickString(payload, UserAliases).None?
          || PickString(payload, MembershipAliases).None?))
    ensures r.Success? <==> (
      && secret.Some? && secret.value != ""
      && jwtVerify(token, secret.value).Some?
      && var payload := jwtVerify(token, secret.value).value;
         PickString(payload, CompanyAliases).Some? && PickString(payload, UserAliases).Some?
         && PickString(payload, MembershipAliases).Some?)
  {
    if secret.None? || secret.value == "" then Failure(MissingSecret)
    else
      var verified := jwtVerify(token, secret.value);
      if verified.None? then Failure(VerificationFailed)
      else
        var payload := verified.value;
        var companyId := PickString(payload, CompanyAliases);
        var userId := PickString(payload, UserAliases);
        var membershipId := PickString(payload, MembershipAliases);
        if companyId.None? || userId.None? || membershipId.None? then Failure(MissingClaims)
        else Success(Claims(companyId.value, userId.value, membershipId.value, payload))
  }

  /** The first listed key holding text decides, whatever the later keys hold. */
  lemma FirstTextWins(payload: Payload, keys: seq<string>, i: nat)
    requires i < |keys| && HasText(payload, keys[i])
    requires forall j :: 0 <= j < i ==> !HasText(payload, keys[j])
    ensures PickString(payload, keys) == Some(payload[keys[i]].s)
  {
    var r := PickString(payload, keys);
    var k :| 0 <= k < |keys| && HasText(payload, keys[k]) && payload[keys[k]] == Str(r.value)
      && forall j :: 0 <= j < k ==> !HasText(payload, keys[j]);
    assert k == i;
  }

  /** `company_id` is read before `companyId`. */
  lemma CompanyIdBeatsCamelCase(payload: Payload)
    requires HasText(payload, "company_id") && HasText(payload, "companyId")
    ensures PickString(payload, CompanyAliases) == Some(payload["company_id"].s)
  {
    FirstTextWins(payload, CompanyAliases, 0);
  }

  /** A key already on the list, or one without text, changes nothing when appended. */
  lemma {:induction false} RepeatedKeyIgnored(payload: Payload, keys: seq<string>, k: string)
    requires k in keys || !HasText(payload, k)
    ensures PickString(payload, keys + [k]) == PickString(payload, keys)
  {
    if keys == [] {
      assert PickString(payload, [k]) == PickString(payload, []);
    } else if !HasText(payload, keys[0]) {
      assert (keys + [k])[1..] == keys[1..] + [k];
      RepeatedKeyIgnored(payload, keys[1..], k);
    }
  }

  /** So the second `'company'` on the company list has no effect. */
  lemma CompanyAliasesRepeat(payload: Payload)
    ensures PickString(payload, CompanyAliases) == PickString(payload, ["company_id", "companyId", "company"])
  {
    assert CompanyAliases == ["company_id", "companyId", "company"] + ["company"];
    RepeatedKeyIgnored(payload, ["company_id", "companyId", "company"], "company");
  }

  /** Whichever accepted spelling carries a claim, the claim read is the same. */
  lemma AnyAliasSpelling(payload: Payload, keys: seq<string>, i: nat, v: string)
    requires i < |keys| && v != "" && keys[i] in payload && payload[keys[i]] == Str(v)
    requires forall j :: 0 <= j < |keys| && keys[j] != keys[i] ==> !HasText(payload, keys[j])
    ensures PickString(payload, keys) == Some(v)
  {
    var r := PickString(payload, keys);
    var k :| 0 <= k < |keys| && HasText(payload, keys[k]) && payload[keys[k]] == Str(r.value);
    assert keys[k] == keys[i];
  }

  /** With no usable secret the verifier is never consulted: any two of them give the
      same failure. */
  lemma SecretCheckedFirst(secret: Option<string>, v1: JwtVerifier, v2: JwtVerifier, token: string)
    requires secret.None? || secret.value == ""
    ensures VerifyWhopAppJwt(secret, v1, token) == VerifyWhopAppJwt(secret, v2, token) == Failure(MissingSecret)
  {
  }
}
