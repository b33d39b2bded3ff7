/**
  What a handler hands back to the framework, reduced to a record: a JSON reply, a
  redirect, or (at the edge) a pass-through with rewritten request headers; each
  carries the cookie changes made on it, in order. Also the ordered name/value list
  behind `URL.searchParams` and `URLSearchParams`, and the faults a handler throws.
 */
module Http {
  import opened Wrappers
  import opened Json

  type Query = seq<(string, string)>

  /** `params.get(name)`: the value of the first pair with that name. */
  function QueryGet(params: Query, name: string): (r: Option<string>)
    ensures r.None? <==> forall i :: 0 <= i < |params| ==> params[i].0 != name
    ensures r.Some? ==> exists i :: (0 <= i < |params| && params[i] == (name, r.value)
      && forall j :: 0 <= j < i ==> params[j].0 != name)
  {
    if |params| == 0 then None
    else if params[0].0 == name then Some(params[0].1)
    else
      var r := QueryGet(params[1..], name);
      if r.Some? then
        ghost var i :| 0 <= i < |params[1..]| && params[1..][i] == (name, r.value)
          && forall j :: 0 <= j < i ==> params[1..][j].0 != name;
        assert params[i + 1] == (name, r.value);
        assert forall j :: 1 <= j < i + 1 ==> params[j] == params[1..][j - 1];
        r
      else r
  }

  predicate HasName(params: Query, name: string)
  {
    exists i :: 0 <= i < |params| && params[i].0 == name
  }

  function RemoveName(params: Query, name: string): (r: Query)
    ensures !HasName(r, name)
    ensures forall n :: n != name ==> QueryGet(r, n) == QueryGet(params, n)
  {
    if |params| == 0 then []
    else if params[0].0 == name then RemoveName(params[1..], name)
    else [params[0]] + RemoveName(params[1..], name)
  }

  function ReplaceFirst(params: Query, name: string, value: string): (r: Query)
    requires HasName(params, name)
    ensures QueryGet(r, name) == Some(value)
    ensures forall n :: n != name ==> QueryGet(r, n) == QueryGet(params, n)
  {
    if params[0].0 == name then [(name, value)] + RemoveName(params[1..], name)
    else
      assert HasName(params[1..], name) by {
        var i :| 0 <= i < |params| && params[i].0 == name;
        assert params[1..][i - 1].0 == name;
      }
      [params[0]] + ReplaceFirst(params[1..], name, value)
  }

  /** `params.set(name, value)`: the first pair with that name takes the new value and
      the later ones go; with no such pair, the pair is appended. */
  function SetParam(params: Query, name: string, value: string): (r: Query)
    ensures (forall i :: 0 <= i < |params| ==> params[i].0 != name) ==> r == params + [(name, value)]
  {
    if HasName(params, name) then ReplaceFirst(params, name, value)
    else params + [(name, value)]
  }

  /** After `set`, `get` of that name gives the new value and every other name reads
      as before. */
  lemma SetParamGet(params: Query, name: string, value: string)
    ensures QueryGet(SetParam(params, name, value), name) == Some(value)
    ensures forall n :: n != name ==> QueryGet(SetParam(params, name, value), n) == QueryGet(params, n)
  {
    if !HasName(params, name) {
      forall n ensures QueryGet(params + [(name, value)], n) == if n == name then Some(value) else QueryGet(params, n) {
        QueryGetAppend(params, n, (name, value));
      }
    }
  }

  lemma {:induction false} QueryGetAppend(params: Query, n: string, p: (string, string))
    ensures QueryGet(params + [p], n)
         == if QueryGet(params, n).Some? then QueryGet(params, n)
            else if p.0 == n then Some(p.1) else None
  {
    if |params| > 0 {
      assert (params + [p])[1..] == params[1..] + [p];
      QueryGetAppend(params[1..], n, p);
    }
  }

  /** A URL as built by `new URL(base)` and `searchParams.set`; its serialisation is
      not modelled. */
  datatype Url = Url(base: string, query: Query)

  /** `new URL(path, request.url)`: a path on the request's own origin; or a URL
      elsewhere. */
  datatype Location = SameOrigin(path: string) | External(url: Url)

  datatype CookieOptions = CookieOptions(
    httpOnly: bool,
    secure: bool,
    sameSite: string,
    path: string,
    maxAge: Option<int>,
    expires: Option<int>)

  /** `res.cookies.set(...)` and `res.cookies.delete(name)` */
  datatype CookieOp =
    | SetCookie(name: string, value: string, options: CookieOptions)
    | DeleteCookie(name: string)

  datatype Response =
    | JsonReply(status: int, body: JsValue, cookies: seq<CookieOp>)
    | Redirect(location: Location, cookies: seq<CookieOp>)
    | PassThrough(requestHeaders: map<string, string>, cookies: seq<CookieOp>)

  /** HTTP whitespace as the Fetch standard defines it: tab, line feed, carriage
      return and space. */
  predicate IsHttpSpace(c: char)
  {
    c == '\t' || c == '\n' || c == '\r' || c == ' '
  }

  /** The length of the run of HTTP whitespace that opens `s`. */
  function LeadingHttpSpace(s: string): (n: nat)
    ensures n <= |s|
    ensures forall i :: 0 <= i < n ==> IsHttpSpace(s[i])
    ensures n < |s| ==> !IsHttpSpace(s[n])
  {
    if |s| > 0 && IsHttpSpace(s[0]) then
      var n := LeadingHttpSpace(s[1..]);
      assert forall i :: 1 <= i < n + 1 ==> s[i] == s[1..][i - 1];
      n + 1
    else 0
  }

  /** Where the run of HTTP whitespace that closes `s` begins, looking no lower than `lo`. */
  function TrailingHttpSpace(s: string, lo: nat): (e: nat)
    requires lo <= |s|
    ensures lo <= e <= |s|
    ensures forall i :: e <= i < |s| ==> IsHttpSpace(s[i])
    ensures e > lo ==> !IsHttpSpace(s[e - 1])
    decreases |s|
  {
    if |s| > lo && IsHttpSpace(s[|s| - 1]) then
      var e := TrailingHttpSpace(s[..|s| - 1], lo);
      assert forall i :: e <= i < |s| - 1 ==> s[i] == s[..|s| - 1][i];
      e
    else |s|
  }

  /** A header value is normalised by removing its leading and trailing HTTP
      whitespace: the opening run is cut off and only whitespace follows the result. */
  function NormalizeHeaderValue(s: string): (r: string)
    ensures |r| > 0 ==> !IsHttpSpace(r[0]) && !IsHttpSpace(r[|r| - 1])
    ensures LeadingHttpSpace(s) + |r| <= |s|
    ensures r == s[LeadingHttpSpace(s)..LeadingHttpSpace(s) + |r|]
    ensures forall i :: LeadingHttpSpace(s) + |r| <= i < |s| ==> IsHttpSpace(s[i])
  {
    var a := LeadingHttpSpace(s);
    s[a..TrailingHttpSpace(s, a)]
  }

  /** A string with no whitespace at either end is already normal. */
  lemma NormalizeHeaderValueBare(s: string)
    requires |s| > 0 ==> !IsHttpSpace(s[0]) && !IsHttpSpace(s[|s| - 1])
    ensures NormalizeHeaderValue(s) == s
  {
    var r := NormalizeHeaderValue(s);
    if |s| > 0 {
      assert LeadingHttpSpace(s) == 0;
      assert |r| == |s|;
    }
  }

  /** A value `Headers.set` accepts once normalised: every character is a byte (the
      ByteString conversion) and none is NUL, CR or LF. */
  predicate ValidHeaderValue(s: string)
  {
    forall i :: 0 <= i < |s| ==> s[i] as int <= 255 && s[i] != '\0' && s[i] != '\n' && s[i] != '\r'
  }

  /** What `headers.set(name, value)` stores: the normalised value, or None where it
      throws a TypeError. */
  function HeaderSetValue(value: string): (r: Option<string>)
    ensures r.Some? <==> ValidHeaderValue(NormalizeHeaderValue(value))
    ensures r.Some? ==> r.value == NormalizeHeaderValue(value) && ValidHeaderValue(r.value)
    // a NUL or a non-byte character anywhere cannot be trimmed away
    ensures (exists i :: 0 <= i < |value| && (value[i] == '\0' || value[i] as int > 255)) ==> r.None?
  {
    var v := NormalizeHeaderValue(value);
    if ValidHeaderValue(v) then Some(v)
    else None
  }

  /** A valid value with no whitespace at either end. */
  predicate BareHeaderValue(value: string)
  {
    ValidHeaderValue(value) && (|value| > 0 ==> !IsHttpSpace(value[0]) && !IsHttpSpace(value[|value| - 1]))
  }

  /** A value with no surrounding whitespace and no forbidden character is stored as it is. */
  lemma HeaderSetValueBare(value: string)
    requires BareHeaderValue(value)
    ensures HeaderSetValue(value) == Some(value)
  {
    NormalizeHeaderValueBare(value);
  }

  /** A line break between two other characters survives the trim, so the value is refused. */
  lemma HeaderSetValueInnerBreak(value: string, j: nat, k: nat)
    requires j < k < |value| - 1 && (value[k] == '\n' || value[k] == '\r')
    requires !IsHttpSpace(value[j]) && !IsHttpSpace(value[|value| - 1])
    ensures HeaderSetValue(value).None?
  {
    var r := NormalizeHeaderValue(value);
    var a := LeadingHttpSpace(value);
    assert a <= j;
    assert a + |r| == |value|;
    assert r[k - a] == value[k];
  }

  /** Normalising twice changes nothing more. */
  lemma NormalizeHeaderValueIdempotent(s: string)
    ensures NormalizeHeaderValue(NormalizeHeaderValue(s)) == NormalizeHeaderValue(s)
  {
    NormalizeHeaderValueBare(NormalizeHeaderValue(s));
  }

  /** `NextResponse.json(body, { status })` with no cookies. */
  function JsonStatus(status: int, body: JsValue): Response
  {
    JsonReply(status, body, [])
  }

  /** `{ error: message }` */
  function ErrorBody(message: string): JsValue
  {
    Obj(map["error" := Str(message)])
  }

  /** An exception that leaves a handler. */
  datatype Fault =
    | MissingEnv(name: string)
    | UpstreamFailed(endpoint: string, status: int, text: string)
    | UpstreamMissingId
    | InvalidJson
    | UniqueConstraint(table: string)
    | RecordNotFound(table: string)
    | NullDestructure

  /** A reply from an outbound `fetch`: its status, its text, and its JSON when the
      text parses. */
  datatype Reply = Reply(status: int, text: string, json: Option<JsValue>)

  /** `res.ok` */
  predicate IsOk(status: int)
  {
    200 <= status <= 299
  }

  /** `requireEnv(name)`: the configured value, or a fault when it is absent. */
  function RequireEnv(env: map<string, string>, name: string): (r: Result<string, Fault>)
    ensures r.Success? <==> name in env
    ensures r.Success? ==> r.value == env[name]
    ensures r.Failure? ==> r.error == MissingEnv(name)
  {
    if name in env then Success(env[name]) else Failure(MissingEnv(name))
  }
}
