/** `POST /api/auth/login`: the shared dashboard password, checked in the handler's
    order, and the cookie it sets on success. */
module Login {
  import opened Wrappers
  import opened Json
  import opened Http

  const PasswordVariable: string := "DASHBOARD_PASSWORD"
  const AuthCookieName: string := "dashboard-auth"
  /** Thirty days in seconds. */
  const AuthCookieMaxAge: int := 60 * 60 * 24 * 30

  function AuthCookieOptions(isProd: bool): CookieOptions
  {
    CookieOptions(true, isProd, "lax", "/", Some(AuthCookieMaxAge), None)
  }

  /** `!process.env.DASHBOARD_PASSWORD` */
  predicate PasswordUnset(env: map<string, string>)
  {
    PasswordVariable !in env || env[PasswordVariable] == ""
  }

  /** The one request the handler accepts: a configured password, given exactly. */
  predicate Admits(body: Option<JsValue>, env: map<string, string>)
  {
    body.Some? && body.value != Null && !PasswordUnset(env) && Get(body.value, "password") == Str(env[PasswordVariable])
  }

  /** The handler; `body` is `None` when the request text is not JSON, and destructuring
      a JSON `null` throws. */
  function Login(body: Option<JsValue>, env: map<string, string>, isProd: bool): (r: Response)
    ensures body.None? || body == Some(Null) ==> r == JsonStatus(500, ErrorBody("Internal server error"))
    ensures body.Some? && body.value != Null && !Truthy(Get(body.value, "password")) ==>
      r == JsonStatus(400, ErrorBody("Password is required"))
    ensures body.Some? && body.value != Null && Truthy(Get(body.value, "password")) && PasswordUnset(env) ==>
      r == JsonStatus(500, ErrorBody("Server configuration error"))
    ensures (body.Some? && body.value != Null && Truthy(Get(body.value, "password")) && !PasswordUnset(env)
             && !Admits(body, env)) ==> r == JsonStatus(401, ErrorBody("Invalid password"))
    ensures Admits(body, env) <==>
      r == JsonReply(200, Obj(map["success" := Bool(true)]), [SetCookie(AuthCookieName, "authenticated", AuthCookieOptions(isProd))])
    ensures r.JsonReply? && (r.cookies != [] <==> Admits(body, env))
  {
    if body.None? || body.value == Null then JsonStatus(500, ErrorBody("Internal server error"))
    else
      var password := Get(body.value, "password");
      if !Truthy(password) then JsonStatus(400, ErrorBody("Password is required"))
      else if PasswordUnset(env) then JsonStatus(500, ErrorBody("Server configuration error"))
      else if password != Str(env[PasswordVariable]) then JsonStatus(401, ErrorBody("Invalid password"))
      else JsonReply(200, Obj(map["success" := Bool(true)]), [SetCookie(AuthCookieName, "authenticated", AuthCookieOptions(isProd))])
  }

  /** The password check comes before the configuration check: a missing password is
      400 even when the server has none configured. */
  lemma MissingPasswordFirst(password: JsValue, env: map<string, string>, isProd: bool)
    requires !Truthy(password)
    ensures Login(Some(Obj(map["password" := password])), env, isProd) == JsonStatus(400, ErrorBody("Password is required"))
  {
  }

  /** Equality is strict: a number is refused even where its digits are the
      configured password. */
  lemma ExactMatchOnly(env: map<string, string>, isProd: bool)
    requires PasswordVariable in env && env[PasswordVariable] == "1234"
    ensures Login(Some(Obj(map["password" := Num(1234)])), env, isProd) == JsonStatus(401, ErrorBody("Invalid password"))
  {
  }
}
