/** The cookie-based token renewal unit: fetch a CSRF token, POST to the
    refresh endpoint with it and the browser's cookies, and on any failure
    drop the stored user. It is never retried automatically.

    The error handler calls a `setUser` that the authentication context
    does not provide, so it throws right after removing the stored user:
    the in-memory user survives and the handler's own navigation is never
    reached. `OnError`/`Renew` model the code as written; `OnErrorIntended`/
    `RenewIntended` model the sign-out it was meant to do, with a working
    `setUser`. */
module TokenRenewal {
  import opened Wrappers
  import opened Text
  import opened Http
  import opened Identity

  /** What the CSRF hook resolved to. It never rejects: a failed fetch or
      an unreadable body resolves to null, modelled with the absent token
      `NoToken` just like a missing `token` field. */
  datatype CsrfAnswer = CsrfToken(value: string) | NoToken

  datatype RefreshRequest = RefreshRequest(
    path: string,
    verb: Method,
    contentType: string,
    xsrfToken: string,
    includeCredentials: bool)

  datatype Outcome = Renewed(statusText: string) | Failed(message: string)

  /** One run: the refresh request issued (at most one), the outcome, and
      the session effects. */
  datatype Renewal = Renewal(request: Option<RefreshRequest>, outcome: Outcome, env: Env)

  const NoCsrfMessage := "Failed to retrieve CSRF token"

  function FailureMessage(r: Response): string {
    "Token renewal failed (" + IntToString(r.status) + "): " + r.body
  }

  /** A token the mutation accepts: present and not empty. */
  predicate Usable(csrf: CsrfAnswer) {
    csrf.CsrfToken? && csrf.value != ""
  }

  /** The body of the mutation: the request, if one is made, and its
      outcome. `refresh` is only consulted when the request is made. */
  function Attempt(csrf: CsrfAnswer, refresh: FetchResult): (r: (Option<RefreshRequest>, Outcome))
    ensures r.0.Some? <==> Usable(csrf)
    ensures r.0.Some? ==> r.0.value == RefreshRequest("/v1/auth/refresh", POST, "application/json", csrf.value, true)
    ensures !Usable(csrf) ==> r.1 == Failed(NoCsrfMessage)
    ensures r.1.Renewed? <==> r.0.Some? && refresh.Received? && refresh.response.Ok()
    ensures r.1.Renewed? ==> r.1.statusText == refresh.response.statusText
    ensures r.0.Some? && refresh.Received? && !refresh.response.Ok() ==>
      r.1 == Failed(FailureMessage(refresh.response))
  {
    match csrf
    case NoToken => (None, Failed(NoCsrfMessage))
    case CsrfToken(token) =>
      if token == "" then (None, Failed(NoCsrfMessage))
      else
        var request := RefreshRequest("/v1/auth/refresh", POST, "application/json", token, true);
        match refresh
        case NetworkError(m) => (Some(request), Failed(m))
        case Received(resp) =>
          if resp.Ok() then (Some(request), Renewed(resp.statusText))
          else (Some(request), Failed(FailureMessage(resp)))
  }

  /** `onError` as it runs: the stored user is removed, then the call to
      the missing `setUser` throws, so neither the in-memory user nor the
      navigation is touched. */
  function OnError(env: Env): (r: Env)
    ensures r.storage == RemoveKeys(env.storage, {UserKey})
    ensures r.user == env.user
    ensures r.nav == env.nav
  {
    env.(storage := env.storage - {UserKey})
  }

  /** `onError` as intended, with a working `setUser`: forget the stored
      user, clear `user`, and navigate to sign in when a navigate function
      was supplied. */
  function OnErrorIntended(env: Env, navigate: bool): (r: Env)
    ensures r.storage == RemoveKeys(env.storage, {UserKey})
    ensures r.user == Null
    ensures r.nav == env.nav + (if navigate then [SignInPath] else [])
  {
    Env(env.storage - {UserKey}, Null, env.nav + (if navigate then [SignInPath] else []))
  }

  /** A whole renewal. Success writes nothing: the refreshed credentials
      travel in cookies, not in storage. */
  function Renew(env: Env, csrf: CsrfAnswer, refresh: FetchResult): (r: Renewal)
    ensures r.outcome.Renewed? ==> r.env == env
    ensures r.outcome.Failed? ==> r.env == OnError(env)
    ensures (r.request, r.outcome) == Attempt(csrf, refresh)
  {
    var (request, outcome) := Attempt(csrf, refresh);
    Renewal(request, outcome, if outcome.Renewed? then env else OnError(env))
  }

  /** The renewal with the error handler as intended. */
  function RenewIntended(env: Env, csrf: CsrfAnswer, refresh: FetchResult, navigate: bool): (r: Renewal)
    ensures r.outcome.Renewed? ==> r.env == env
    ensures r.outcome.Failed? ==> r.env == OnErrorIntended(env, navigate)
    ensures (r.request, r.outcome) == Attempt(csrf, refresh)
  {
    var (request, outcome) := Attempt(csrf, refresh);
    Renewal(request, outcome, if outcome.Renewed? then env else OnErrorIntended(env, navigate))
  }

  /** A renewal never signs anyone out in memory and never navigates: it
      leaves the session alone, or only drops the stored user. Storage only
      loses items. */
  lemma RenewalEffects(env: Env, csrf: CsrfAnswer, refresh: FetchResult)
    ensures var r := Renew(env, csrf, refresh);
      r.env.user == env.user && r.env.nav == env.nav
    ensures var r := Renew(env, csrf, refresh);
      r.env == env || r.env.storage == RemoveKeys(env.storage, {UserKey})
    ensures var r := Renew(env, csrf, refresh);
      r.env.storage.Keys <= env.storage.Keys
    ensures var r := Renew(env, csrf, refresh);
      forall k :: k in r.env.storage ==> r.env.storage[k] == env.storage[k]
  {
  }

  /** Without a usable CSRF token no request goes out; the stored user is
      dropped while the in-memory user stays. */
  lemma NoCsrfNoRequest(env: Env, csrf: CsrfAnswer, refresh: FetchResult)
    requires !Usable(csrf)
    ensures var r := Renew(env, csrf, refresh);
      r.request.None? && r.outcome == Failed(NoCsrfMessage)
      && r.env.user == env.user && UserKey !in r.env.storage
  {
  }

  /** The discrepancy: a signed-in visitor whose renewal fails stays signed
      in until the next reload, which then finds no stored user. */
  lemma FailedRenewalKeepsUser(principal: Principal, storage: Storage, nav: seq<string>, refresh: FetchResult)
    ensures var env := Env(storage, Account(principal), nav);
      var r := Renew(env, NoToken, refresh);
      IsAuthenticated(r.env.user) && UserKey !in r.env.storage && r.env.nav == nav
  {
  }

  /** The intended handler signs the visitor out, and otherwise agrees
      with the running one on the request, the outcome and the storage. */
  lemma RenewIntendedSignsOut(env: Env, csrf: CsrfAnswer, refresh: FetchResult, navigate: bool)
    ensures var r := RenewIntended(env, csrf, refresh, navigate);
      r.outcome.Failed? ==>
        && !IsAuthenticated(r.env.user)
        && UserKey !in r.env.storage
        && r.env.nav == env.nav + (if navigate then [SignInPath] else [])
    ensures var r := RenewIntended(env, csrf, refresh, navigate);
      var w := Renew(env, csrf, refresh);
      r.request == w.request && r.outcome == w.outcome && r.env.storage == w.env.storage
  {
  }
}
