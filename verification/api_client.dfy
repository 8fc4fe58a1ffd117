/** The authenticated request helper: send the call with the stored access
    token; on 401 or 403 renew the session once and retry once; reject on
    failure and navigate to sign in. The server's answers, the CSRF token
    and the renewal's answer are inputs. */
module ApiClient {
  import opened Wrappers
  import opened Text
  import opened Http
  import opened Identity
  import TokenRenewal

  const JsonType := "application/json"

  /** A request body value: its `JSON.stringify` text, its raw form, and
      whether JavaScript counts it as truthy. */
  datatype Value = Value(json: string, raw: string, truthy: bool)

  /** The call's options; `None` is an omitted (`undefined`) option. */
  datatype ApiOptions = ApiOptions(
    url: string,
    verb: Option<Method>,
    body: Option<Value>,
    contentType: Option<string>)

  datatype SentBody = Omitted | JsonText(text: string) | Raw(value: string)

  datatype Request = Request(
    url: string,
    verb: Method,
    authorization: string,
    contentType: Option<string>,
    body: SentBody)

  /** The effective content type: the default applies only when omitted. */
  function ContentTypeOf(opts: ApiOptions): string {
    opts.contentType.GetOr(JsonType)
  }

  /** `createRequestOptions(token)`. */
  function BuildRequest(opts: ApiOptions, token: string): (r: Request)
    ensures r.url == opts.url
    ensures r.verb == opts.verb.GetOr(GET)
    ensures r.authorization == "Bearer " + token
    ensures r.contentType.Some? <==> ContentTypeOf(opts) != ""
    ensures r.contentType.Some? ==> r.contentType.value == ContentTypeOf(opts)
    ensures r.body.Omitted? <==> opts.body.None? || !opts.body.value.truthy
    ensures r.body.JsonText? <==> !r.body.Omitted? && ContentTypeOf(opts) == JsonType
    ensures r.body.JsonText? ==> r.body.text == opts.body.value.json
    ensures r.body.Raw? ==> r.body.value == opts.body.value.raw
  {
    var ct := ContentTypeOf(opts);
    var body :=
      if opts.body.None? || !opts.body.value.truthy then Omitted
      else if ct == JsonType then JsonText(opts.body.value.json)
      else Raw(opts.body.value.raw);
    Request(opts.url, opts.verb.GetOr(GET), "Bearer " + token, if ct != "" then Some(ct) else None, body)
  }

  /** The settled promise: the parsed body, or a rejection. */
  datatype CallResult = Resolved(body: string) | Rejected(message: string)

  /** Everything one call did. */
  datatype Trace = Trace(requests: seq<Request>, renewals: nat, result: CallResult, env: Env)

  const AuthFailedMessage := "Authentication failed, please sign in again."

  predicate IsAuthStatus(status: int) {
    status == 401 || status == 403
  }

  function ApiErrorMessage(r: Response): string {
    "API Error (" + IntToString(r.status) + "): " + (if r.body != "" then r.body else r.statusText)
  }

  function NavIf(env: Env, navigate: bool): Env {
    env.(nav := env.nav + (if navigate then [SignInPath] else []))
  }

  /** The answers the world gives one call. */
  datatype World = World(
    first: FetchResult,
    csrf: TokenRenewal.CsrfAnswer,
    refresh: FetchResult,
    second: FetchResult)

  /** `callApiWithAuth` as written: the outer `catch` navigates to sign in
      on every failure that reaches it. The renewal's error handler throws
      before clearing `user`, so no call signs the visitor out in memory. */
  function Call(opts: ApiOptions, env: Env, navigate: bool, w: World): (t: Trace)
    ensures 1 <= |t.requests| <= 2 && t.renewals <= 1
    ensures t.requests[0] == BuildRequest(opts, TextItem(env.storage, AccessTokenKey))
    ensures t.renewals == 1 <==> w.first.Received? && IsAuthStatus(w.first.response.status)
    ensures |t.requests| == 2 ==> t.renewals == 1 && t.requests[1] == t.requests[0]
    ensures w.first.Received? && w.first.response.Ok() ==> t == Trace(t.requests, 0, Resolved(w.first.response.body), env)
    ensures t.result.Resolved? ==> t.env == env
    ensures |t.requests| == 2 && t.result.Resolved? ==>
      w.second.Received? && t.result == Resolved(w.second.response.body)
    ensures t.env.user == env.user
  {
    var req1 := BuildRequest(opts, TextItem(env.storage, AccessTokenKey));
    match w.first
    case NetworkError(m) => Trace([req1], 0, Rejected(m), NavIf(env, navigate))
    case Received(resp) =>
      if IsAuthStatus(resp.status) then
        var renewal := TokenRenewal.Renew(env, w.csrf, w.refresh);
        if renewal.outcome.Failed? then
          Trace([req1], 1, Rejected(AuthFailedMessage), NavIf(renewal.env, navigate))
        else
          var req2 := BuildRequest(opts, TextItem(renewal.env.storage, AccessTokenKey));
          if w.second.Received? && w.second.response.Ok() then
            Trace([req1, req2], 1, Resolved(w.second.response.body), renewal.env)
          else
            Trace([req1, req2], 1, Rejected(AuthFailedMessage), NavIf(renewal.env, navigate))
      else if resp.Ok() then Trace([req1], 0, Resolved(resp.body), env)
      else Trace([req1], 0, Rejected(ApiErrorMessage(resp)), NavIf(env, navigate))
  }

  /** The call resolves exactly when the first answer is ok, or it is 401 or
      403 and both the renewal and the retry succeed. */
  lemma ResolvesIff(opts: ApiOptions, env: Env, navigate: bool, w: World)
    ensures Call(opts, env, navigate, w).result.Resolved? <==>
      || (w.first.Received? && w.first.response.Ok())
      || (&& w.first.Received? && IsAuthStatus(w.first.response.status)
          && TokenRenewal.Attempt(w.csrf, w.refresh).1.Renewed?
          && w.second.Received? && w.second.response.Ok())
  {
  }

  /** A failed call: after an auth status it always rejects with the fixed
      message and the renewal's failure effects come first; otherwise the
      message carries the status. Either way the call itself navigates to
      sign in once when it can. */
  lemma RejectionShape(opts: ApiOptions, env: Env, navigate: bool, w: World)
    requires Call(opts, env, navigate, w).result.Rejected?
    ensures var t := Call(opts, env, navigate, w);
      w.first.Received? && IsAuthStatus(w.first.response.status) ==>
        && t.result.message == AuthFailedMessage
        && t.env == NavIf(TokenRenewal.Renew(env, w.csrf, w.refresh).env, navigate)
    ensures var t := Call(opts, env, navigate, w);
      w.first.Received? && !IsAuthStatus(w.first.response.status) ==>
        t.result.message == ApiErrorMessage(w.first.response) && t.env == NavIf(env, navigate)
    ensures var t := Call(opts, env, navigate, w);
      w.first.NetworkError? ==>
        && |t.requests| == 1 && t.renewals == 0
        && t.result.message == w.first.message && t.env == NavIf(env, navigate)
  {
  }

  /** When the renewal fails the visitor is sent to sign in once, by the
      call: the renewal unit's own navigation is never reached. The stored
      user is gone while the in-memory one stays. */
  lemma RenewalFailureNavigatesOnce(opts: ApiOptions, env: Env, status: int, w: World)
    requires IsAuthStatus(status) && w.first.Received? && w.first.response.status == status
    requires TokenRenewal.Attempt(w.csrf, w.refresh).1.Failed?
    ensures Call(opts, env, true, w).env.nav == env.nav + [SignInPath]
    ensures Call(opts, env, true, w).env.user == env.user
    ensures UserKey !in Call(opts, env, true, w).env.storage
  {
  }

  /** A server error unrelated to authentication still sends the visitor to
      sign in. */
  lemma ServerErrorNavigates(opts: ApiOptions, env: Env)
    ensures var t := Call(opts, env, true, World(Received(Response(500, "Internal Server Error", "")), TokenRenewal.NoToken, NetworkError(""), NetworkError("")));
      t.result == Rejected("API Error (500): Internal Server Error") && t.env.nav == env.nav + [SignInPath]
  {
    ServerErrorMessage();
    var resp := Response(500, "Internal Server Error", "");
    assert !IsAuthStatus(resp.status) && !resp.Ok();
  }

  lemma ServerErrorMessage()
    ensures ApiErrorMessage(Response(500, "Internal Server Error", "")) == "API Error (500): Internal Server Error"
  {
    FiveHundredText();
    assert "API Error (" + "500" + "): " + "Internal Server Error" == "API Error (500): Internal Server Error";
  }

  lemma FiveHundredText()
    ensures IntToString(500) == "500"
  {
    assert 500 / 10 == 50 && 500 % 10 == 0 && 50 / 10 == 5 && 50 % 10 == 0;
    assert NatToString(5) == "5";
    assert NatToString(50) == "5" + "0";
    assert NatToString(500) == "50" + "0";
  }

  /** The call with navigation reserved for authentication failures: any
      other failure rejects and leaves the session where it was. */
  function CallFixed(opts: ApiOptions, env: Env, navigate: bool, w: World): (t: Trace)
    ensures (t.requests, t.renewals, t.result) == (var c := Call(opts, env, navigate, w); (c.requests, c.renewals, c.result))
    ensures !(w.first.Received? && IsAuthStatus(w.first.response.status)) ==> t.env == env
    ensures w.first.Received? && IsAuthStatus(w.first.response.status) ==> t.env == Call(opts, env, navigate, w).env
  {
    var t := Call(opts, env, navigate, w);
    if w.first.Received? && IsAuthStatus(w.first.response.status) then t else t.(env := env)
  }

  /** Under the fixed policy a session leaves for sign in only when its
      credentials were refused. */
  lemma FixedNavigatesOnlyOnAuth(opts: ApiOptions, env: Env, navigate: bool, w: World)
    requires |CallFixed(opts, env, navigate, w).env.nav| > |env.nav|
    ensures w.first.Received? && IsAuthStatus(w.first.response.status)
    ensures CallFixed(opts, env, navigate, w).result == Rejected(AuthFailedMessage)
  {
  }
}
