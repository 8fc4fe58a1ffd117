/** The auth provider: the session held in browser storage and in the
    provider's `user`/`isLoading` state, and the effects of its operations.
    Each server call is summarised by its reply: `None` for a failed call
    (non-ok status or network error), whose only effect is a toast. */
module Session {
  import opened Wrappers
  import opened Identity

  datatype State = State(env: Env, isLoading: bool)

  /** The provider on mount: nothing known yet. */
  function Initial(storage: Storage): (s: State)
    ensures s.isLoading && s.env.user == Null && s.env.nav == [] && s.env.storage == storage
  {
    State(Env(storage, Null, []), true)
  }

  /** The context's `isAuthenticated`. */
  predicate Authenticated(s: State) {
    IsAuthenticated(s.env.user)
  }

  // ------------------------------------------------------------ rehydration

  predicate SessionStored(st: Storage) {
    HasItem(st, AccessTokenKey) && HasItem(st, RefreshTokenKey) && HasItem(st, UserKey)
  }

  /** `checkAuthStatus`: with an access token, a refresh token and a user all
      stored, restore the user; if the stored user does not parse, remove all
      three. Loading ends on every path. */
  function Rehydrate(s: State): (r: State)
    ensures !r.isLoading
    ensures r.env.nav == s.env.nav
    ensures !SessionStored(s.env.storage) ==> r.env == s.env
    ensures SessionStored(s.env.storage) && ParseUser(s.env.storage[UserKey]).Some? ==>
      r.env == s.env.(user := ParseUser(s.env.storage[UserKey]).value)
    ensures SessionStored(s.env.storage) && ParseUser(s.env.storage[UserKey]).None? ==>
      && r.env.user == s.env.user
      && r.env.storage == RemoveKeys(s.env.storage, {UserKey, AccessTokenKey, RefreshTokenKey})
  {
    var st := s.env.storage;
    if !SessionStored(st) then s.(isLoading := false)
    else match ParseUser(st[UserKey])
      case Some(u) => State(s.env.(user := u), false)
      case None => State(s.env.(storage := st - {UserKey, AccessTokenKey, RefreshTokenKey}), false)
  }

  /** A reload restores the user exactly when all three items are stored and
      the stored user parses to a truthy value. */
  lemma RehydrateAuthenticates(storage: Storage)
    ensures Authenticated(Rehydrate(Initial(storage))) <==>
      SessionStored(storage) && ParseUser(storage[UserKey]).Some?
      && IsAuthenticated(ParseUser(storage[UserKey]).value)
  {
  }

  // ------------------------------------------------------------ requests

  datatype JsonField = JsonField(key: string, value: string)

  /** A JSON POST the provider makes, by path relative to the API base URL. */
  datatype AuthRequest = AuthRequest(path: string, fields: seq<JsonField>)

  /** A provider operation: the requests it made and the resulting state. */
  datatype Step = Step(requests: seq<AuthRequest>, state: State)

  // ------------------------------------------------------------ renewal

  datatype RenewReply = RenewReply(accessToken: string, refreshToken: string, user: UserValue)

  /** `renewAccessToken` with a refresh token: an empty token fails before
      any request; a success stores both tokens and the user, sets the user
      and goes home; any failure goes to sign in. */
  function RenewAccessToken(s: State, refreshToken: string, reply: Option<RenewReply>): (r: Step)
    ensures refreshToken == "" ==> r.requests == []
    ensures refreshToken != "" ==> r.requests == [AuthRequest("/v1/renew-access-token", [JsonField("refreshToken", refreshToken)])]
    ensures refreshToken != "" && reply.Some? ==>
      && r.state.env.storage == s.env.storage[AccessTokenKey := Text(reply.value.accessToken)]
           [RefreshTokenKey := Text(reply.value.refreshToken)][UserKey := Serialized(reply.value.user)]
      && r.state.env.user == reply.value.user
      && r.state.env.nav == s.env.nav + [HomePath]
    ensures refreshToken == "" || reply.None? ==>
      r.state == s.(env := s.env.(nav := s.env.nav + [SignInPath]))
    ensures r.state.isLoading == s.isLoading
  {
    if refreshToken == "" then
      Step([], s.(env := s.env.(nav := s.env.nav + [SignInPath])))
    else
      var request := AuthRequest("/v1/renew-access-token", [JsonField("refreshToken", refreshToken)]);
      match reply
      case None => Step([request], s.(env := s.env.(nav := s.env.nav + [SignInPath])))
      case Some(d) =>
        var st := s.env.storage[AccessTokenKey := Text(d.accessToken)]
          [RefreshTokenKey := Text(d.refreshToken)][UserKey := Serialized(d.user)];
        Step([request], s.(env := Env(st, d.user, s.env.nav + [HomePath])))
  }

  /** After a successful renewal a reload restores the same user (unless
      the server sent none), as long as both tokens are non-empty. */
  lemma RenewedSessionSurvivesReload(s: State, refreshToken: string, reply: RenewReply)
    requires refreshToken != ""
    requires reply.accessToken != "" && reply.refreshToken != ""
    requires reply.user != Undefined
    ensures var after := RenewAccessToken(s, refreshToken, Some(reply)).state;
      Rehydrate(Initial(after.env.storage)).env.user == reply.user
  {
  }

  // ------------------------------------------------------------ sign-up / sign-in

  datatype SignUpData = SignUpData(name: string, email: string, password: string)

  datatype SignUpReply = SignUpReply(token: string, user: UserValue)

  function SignUpRequest(data: SignUpData): AuthRequest {
    AuthRequest("/v1/register", [JsonField("name", data.name), JsonField("email", data.email), JsonField("password", data.password)])
  }

  /** `signUp`: on success store the token and the user, set the user and
      go home. */
  function SignUp(s: State, data: SignUpData, reply: Option<SignUpReply>): (r: Step)
    ensures r.requests == [SignUpRequest(data)]
    ensures reply.None? ==> r.state == s
    ensures reply.Some? ==>
      && r.state.env.storage == s.env.storage[TokenKey := Text(reply.value.token)][UserKey := Serialized(reply.value.user)]
      && r.state.env.user == reply.value.user
      && r.state.env.nav == s.env.nav + [HomePath]
    ensures r.state.isLoading == s.isLoading
  {
    match reply
    case None => Step([SignUpRequest(data)], s)
    case Some(d) =>
      var st := s.env.storage[TokenKey := Text(d.token)][UserKey := Serialized(d.user)];
      Step([SignUpRequest(data)], s.(env := Env(st, d.user, s.env.nav + [HomePath])))
  }

  /** A sign-up stores no access or refresh token, so a reload after it
      does not restore the session. */
  lemma SignUpDoesNotSurviveReload(s: State, data: SignUpData, reply: SignUpReply)
    requires !HasItem(s.env.storage, AccessTokenKey)
    ensures !Authenticated(Rehydrate(Initial(SignUp(s, data, Some(reply)).state.env.storage)))
  {
  }

  /** The sign-in reply: the temporary token and the user inside `data`,
      and the top-level `user` field (usually missing). */
  datatype SignInReply = SignInReply(tempToken: string, dataUser: UserValue, topUser: UserValue)

  /** `data.data.user || "No data"`. */
  function StoredSignInUser(d: SignInReply): (u: UserValue)
    ensures IsAuthenticated(u)
    ensures IsAuthenticated(d.dataUser) ==> u == d.dataUser
  {
    if IsAuthenticated(d.dataUser) then d.dataUser else Opaque("No data")
  }

  function SignInRequest(email: string, password: string): AuthRequest {
    AuthRequest("/v1/login-password", [JsonField("email", email), JsonField("password", password)])
  }

  /** `signIn`: on success store the temporary token and the user, set the
      user from the top-level field, then renew with the temporary token as
      the refresh token. */
  function SignIn(s: State, email: string, password: string, reply: Option<SignInReply>, renewal: Option<RenewReply>): (r: Step)
    ensures reply.None? ==> r == Step([SignInRequest(email, password)], s)
    ensures reply.Some? ==>
      var signedIn := s.(env := Env(
        s.env.storage[TempTokenKey := Text(reply.value.tempToken)][UserKey := Serialized(StoredSignInUser(reply.value))],
        reply.value.topUser,
        s.env.nav));
      var renew := RenewAccessToken(signedIn, reply.value.tempToken, renewal);
      r == Step([SignInRequest(email, password)] + renew.requests, renew.state)
    ensures r.state.isLoading == s.isLoading
  {
    match reply
    case None => Step([SignInRequest(email, password)], s)
    case Some(d) =>
      var st := s.env.storage[TempTokenKey := Text(d.tempToken)][UserKey := Serialized(StoredSignInUser(d))];
      var renew := RenewAccessToken(s.(env := Env(st, d.topUser, s.env.nav)), d.tempToken, renewal);
      Step([SignInRequest(email, password)] + renew.requests, renew.state)
  }

  /** A sign-in makes at most two requests, the renewal only after a
      successful login with a non-empty temporary token; when that renewal
      fails the visitor is back at sign in. */
  lemma SignInOutcomes(s: State, email: string, password: string, reply: Option<SignInReply>, renewal: Option<RenewReply>)
    ensures var r := SignIn(s, email, password, reply, renewal);
      1 <= |r.requests| <= 2 && (|r.requests| == 2 <==> reply.Some? && reply.value.tempToken != "")
    ensures var r := SignIn(s, email, password, reply, renewal);
      reply.Some? && (reply.value.tempToken == "" || renewal.None?) ==>
        r.state.env.nav == s.env.nav + [SignInPath] && r.state.env.user == reply.value.topUser
    ensures var r := SignIn(s, email, password, reply, renewal);
      reply.Some? && reply.value.tempToken != "" && renewal.Some? ==>
        r.state.env.user == renewal.value.user && r.state.env.nav == s.env.nav + [HomePath]
  {
  }

  // ------------------------------------------------------------ sign-out

  /** `signOut` as written: removes `token` and `user`, clears the user and
      goes to sign in. */
  function SignOut(s: State): (r: State)
    ensures r.env.storage == RemoveKeys(s.env.storage, {TokenKey, UserKey})
    ensures r.env.user == Null && r.env.nav == s.env.nav + [SignInPath]
    ensures r.isLoading == s.isLoading
  {
    s.(env := Env(s.env.storage - {TokenKey, UserKey}, Null, s.env.nav + [SignInPath]))
  }

  /** The sign-out leaves the access and refresh tokens behind. A reload
      still finds no session, since the user item is gone. */
  lemma SignOutLeavesTokens(s: State)
    requires AccessTokenKey in s.env.storage && RefreshTokenKey in s.env.storage
    ensures SignOut(s).env.storage[AccessTokenKey] == s.env.storage[AccessTokenKey]
    ensures SignOut(s).env.storage[RefreshTokenKey] == s.env.storage[RefreshTokenKey]
    ensures !Authenticated(SignOut(s)) && !Authenticated(Rehydrate(Initial(SignOut(s).env.storage)))
  {
  }

  /** Every credential the provider writes. */
  const CredentialKeys: set<string> := {TokenKey, TempTokenKey, AccessTokenKey, RefreshTokenKey, UserKey}

  /** A sign-out that removes every credential the provider writes. */
  function SignOutClearing(s: State): (r: State)
    ensures forall k :: k in CredentialKeys ==> k !in r.env.storage
    ensures forall k :: k in s.env.storage && k !in CredentialKeys ==> k in r.env.storage && r.env.storage[k] == s.env.storage[k]
    ensures r.env.user == Null && r.env.nav == s.env.nav + [SignInPath]
    ensures r.isLoading == s.isLoading
  {
    s.(env := Env(s.env.storage - CredentialKeys, Null, s.env.nav + [SignInPath]))
  }

  /** After the clearing sign-out nothing can authenticate a request: the
      stored access token reads as empty and a reload finds no session. */
  lemma SignOutClearingForgets(s: State)
    ensures TextItem(SignOutClearing(s).env.storage, AccessTokenKey) == ""
    ensures !Authenticated(Rehydrate(Initial(SignOutClearing(s).env.storage)))
  {
  }

  // ------------------------------------------------------------ password reset

  /** `requestPasswordReset`: on success go to code entry with the email in
      the query string (not URL-encoded). */
  function RequestPasswordReset(s: State, email: string, ok: bool): (r: Step)
    ensures r.requests == [AuthRequest("/v1/login-email-otp", [JsonField("email", email)])]
    ensures ok ==> r.state == s.(env := s.env.(nav := s.env.nav + ["/auth/verify-code?email=" + email]))
    ensures !ok ==> r.state == s
    ensures r.state.isLoading == s.isLoading
  {
    var request := AuthRequest("/v1/login-email-otp", [JsonField("email", email)]);
    if ok then Step([request], s.(env := s.env.(nav := s.env.nav + ["/auth/verify-code?email=" + email])))
    else Step([request], s)
  }

  /** `verifyCode`: the request only; success has no effect beyond a toast. */
  function VerifyCode(s: State, email: string, otp: string, ok: bool): (r: Step)
    ensures r.requests == [AuthRequest("/v1/forgot-password-verify-email-otp", [JsonField("email", email), JsonField("otp", otp)])]
    ensures r.state == s
    ensures r.state.isLoading == s.isLoading
  {
    Step([AuthRequest("/v1/forgot-password-verify-email-otp", [JsonField("email", email), JsonField("otp", otp)])], s)
  }

  /** `newPassword`: send the password with the stored reset token (empty
      when none), and go to sign in on success. */
  function NewPassword(s: State, password: string, ok: bool): (r: Step)
    ensures r.requests == [AuthRequest("/v1/authenticator-generate-code",
      [JsonField("password", password), JsonField("reset_password_token", TextItem(s.env.storage, ResetTokenKey))])]
    ensures ok ==> r.state == s.(env := s.env.(nav := s.env.nav + [SignInPath]))
    ensures !ok ==> r.state == s
    ensures r.state.isLoading == s.isLoading
  {
    var request := AuthRequest("/v1/authenticator-generate-code",
      [JsonField("password", password), JsonField("reset_password_token", TextItem(s.env.storage, ResetTokenKey))]);
    Step([request], if ok then s.(env := s.env.(nav := s.env.nav + [SignInPath])) else s)
  }

  /** `getToken`: the `token` item, or null. */
  function GetToken(s: State): (t: Option<string>)
    ensures t.Some? ==> TokenKey in s.env.storage && s.env.storage[TokenKey] == Text(t.value)
    ensures TokenKey in s.env.storage && s.env.storage[TokenKey].Text? ==> t.Some?
  {
    if TokenKey in s.env.storage && s.env.storage[TokenKey].Text? then Some(s.env.storage[TokenKey].s) else None
  }

  // ------------------------------------------------------------ all operations

  /** Every operation the provider exposes or runs, with the replies it
      gets. */
  datatype Operation =
    | Reload
    | RenewOp(refreshToken: string, renewReply: Option<RenewReply>)
    | SignUpOp(data: SignUpData, signUpReply: Option<SignUpReply>)
    | SignInOp(email: string, password: string, signInReply: Option<SignInReply>, renewal: Option<RenewReply>)
    | SignOutOp
    | ResetRequestOp(resetEmail: string, resetOk: bool)
    | VerifyCodeOp(codeEmail: string, otp: string, codeOk: bool)
    | NewPasswordOp(newPassword: string, passwordOk: bool)

  /** The state after one operation. */
  function Apply(s: State, op: Operation): State {
    match op
    case Reload => Rehydrate(s)
    case RenewOp(t, reply) => RenewAccessToken(s, t, reply).state
    case SignUpOp(data, reply) => SignUp(s, data, reply).state
    case SignInOp(email, password, reply, renewal) => SignIn(s, email, password, reply, renewal).state
    case SignOutOp => SignOut(s)
    case ResetRequestOp(email, ok) => RequestPasswordReset(s, email, ok).state
    case VerifyCodeOp(email, otp, ok) => VerifyCode(s, email, otp, ok).state
    case NewPasswordOp(password, ok) => NewPassword(s, password, ok).state
  }

  /** Only rehydration ends loading: every other operation leaves the flag
      as it found it, so from the initial state the provider reports
      loading until the first reload check. */
  lemma LoadingOnlyEndsOnRehydrate(s: State, op: Operation)
    ensures Apply(s, op).isLoading <==> s.isLoading && !op.Reload?
  {
  }

  /** Nothing but a reload check ends loading, however many operations run
      before it. */
  lemma {:induction false} LoadingUntilReload(storage: Storage, ops: seq<Operation>)
    requires forall k :: 0 <= k < |ops| ==> !ops[k].Reload?
    ensures ApplyAll(Initial(storage), ops).isLoading
    decreases |ops|
  {
    if |ops| > 0 {
      LoadingUntilReload(storage, ops[..|ops| - 1]);
      LoadingOnlyEndsOnRehydrate(ApplyAll(Initial(storage), ops[..|ops| - 1]), ops[|ops| - 1]);
    }
  }

  /** The operations in order. */
  function ApplyAll(s: State, ops: seq<Operation>): State
    decreases |ops|
  {
    if |ops| == 0 then s else Apply(ApplyAll(s, ops[..|ops| - 1]), ops[|ops| - 1])
  }

  /** The password-reset flow never touches the session: whatever the
      replies, storage and the user stay as they were, and the only
      navigations are to code entry and to sign in. */
  lemma PasswordResetLeavesSession(s: State, email: string, otp: string, password: string, ok1: bool, ok2: bool, ok3: bool)
    ensures var a := RequestPasswordReset(s, email, ok1).state;
      var b := VerifyCode(a, email, otp, ok2).state;
      var c := NewPassword(b, password, ok3).state;
      && c.env.storage == s.env.storage && c.env.user == s.env.user && c.isLoading == s.isLoading
      && c.env.nav == s.env.nav + (if ok1 then ["/auth/verify-code?email=" + email] else [])
                                + (if ok3 then [SignInPath] else [])
  {
  }

  /** The new password goes out with the stored reset token, or an empty
      one when none is stored. */
  lemma NewPasswordResetToken(s: State, password: string, ok: bool)
    ensures ResetTokenKey !in s.env.storage ==>
      NewPassword(s, password, ok).requests[0].fields[1] == JsonField("reset_password_token", "")
    ensures ResetTokenKey in s.env.storage && s.env.storage[ResetTokenKey].Text? ==>
      NewPassword(s, password, ok).requests[0].fields[1] ==
        JsonField("reset_password_token", s.env.storage[ResetTokenKey].s)
  {
  }
}
