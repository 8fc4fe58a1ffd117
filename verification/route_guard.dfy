/** The route guards: `AuthGuard` keeps signed-in users off the auth pages,
    `ProtectedRoute` keeps signed-out users and users without a required
    role off the application pages. Every redirect carries the current
    location as `from`. */
module RouteGuard {
  import opened Identity

  datatype Decision = Loading | Render | Redirect(to: string, from: string)

  /** `AuthGuard`: wait for the session, send a signed-in user home (the
      admin dashboard for an admin), let everyone else through. */
  function AuthGuard(isLoading: bool, user: UserValue, location: string): (d: Decision)
    ensures isLoading ==> d == Loading
    ensures !isLoading && !IsAuthenticated(user) ==> d == Render
    ensures !isLoading && IsAuthenticated(user) ==> d.Redirect? && d.from == location
    ensures d.Redirect? ==> (d.to == AdminHomePath <==> HasRole(user, "ROLE_ADMIN"))
    ensures d.Redirect? ==> (d.to == HomePath <==> !HasRole(user, "ROLE_ADMIN"))
  {
    if isLoading then Loading
    else if IsAuthenticated(user) then
      Redirect(if HasRole(user, "ROLE_ADMIN") then AdminHomePath else HomePath, location)
    else Render
  }

  /** Some role of the user is named in `allowed`. */
  predicate HoldsOneOf(user: UserValue, allowed: seq<string>) {
    exists k :: 0 <= k < |RolesOf(user)| && RolesOf(user)[k].name in allowed
  }

  /** `ProtectedRoute`: wait for the session, send a signed-out user to sign
      in, send a user holding none of a non-empty `allowedRoles` home, and
      render for everyone else. */
  function ProtectedRoute(allowedRoles: seq<string>, isLoading: bool, user: UserValue, location: string): (d: Decision)
    ensures isLoading ==> d == Loading
    ensures !isLoading && !IsAuthenticated(user) ==> d == Redirect(SignInPath, location)
    ensures !isLoading && IsAuthenticated(user) ==>
      (d == Render <==> |allowedRoles| == 0 || HoldsOneOf(user, allowedRoles))
    ensures !isLoading && IsAuthenticated(user) && d != Render ==> d == Redirect(HomePath, location)
  {
    if isLoading then Loading
    else if !IsAuthenticated(user) then Redirect(SignInPath, location)
    else if |allowedRoles| > 0 && !HoldsOneOf(user, allowedRoles) then Redirect(HomePath, location)
    else Render
  }

  /** Holding one of a single allowed role is holding that role. */
  lemma HoldsOneOfSingle(user: UserValue, name: string)
    ensures HoldsOneOf(user, [name]) <==> HasRole(user, name)
  {
    if HasRole(user, name) {
      var k :| 0 <= k < |RolesOf(user)| && RolesOf(user)[k].name == name;
      assert RolesOf(user)[k].name in [name];
    }
  }

  /** The admin wrapper: once the session is known it renders exactly for
      signed-in admins, and sends everyone else to sign in or home. */
  function AdminRoute(isLoading: bool, user: UserValue, location: string): (d: Decision)
    ensures isLoading ==> d == Loading
    ensures !isLoading ==> (d == Render <==> IsAuthenticated(user) && HasRole(user, "ROLE_ADMIN"))
    ensures !isLoading && d != Render ==>
      d == Redirect(if IsAuthenticated(user) then HomePath else SignInPath, location)
  {
    HoldsOneOfSingle(user, "ROLE_ADMIN");
    ProtectedRoute(["ROLE_ADMIN"], isLoading, user, location)
  }

  /** The manager wrapper, the same for managers. */
  function ManagerRoute(isLoading: bool, user: UserValue, location: string): (d: Decision)
    ensures isLoading ==> d == Loading
    ensures !isLoading ==> (d == Render <==> IsAuthenticated(user) && HasRole(user, "ROLE_MANAGER"))
    ensures !isLoading && d != Render ==>
      d == Redirect(if IsAuthenticated(user) then HomePath else SignInPath, location)
  {
    HoldsOneOfSingle(user, "ROLE_MANAGER");
    ProtectedRoute(["ROLE_MANAGER"], isLoading, user, location)
  }

  /** The user wrapper requires no role: once the session is known it
      renders for every signed-in user and sends the rest to sign in. */
  function UserRoute(isLoading: bool, user: UserValue, location: string): (d: Decision)
    ensures isLoading ==> d == Loading
    ensures !isLoading ==> (d == Render <==> IsAuthenticated(user))
    ensures !isLoading && d != Render ==> d == Redirect(SignInPath, location)
  {
    ProtectedRoute([], isLoading, user, location)
  }

  /** Once the session is known, exactly one of the auth pages and the
      user pages renders for any user. */
  lemma GuardsPartition(user: UserValue, location: string)
    ensures (AuthGuard(false, user, location) == Render) != (UserRoute(false, user, location) == Render)
  {
  }

  /** `AuthGuard`'s redirect lands on a page that admits the user: admins on
      the admin dashboard, everyone else on the home page. */
  lemma AuthGuardRedirectAdmitted(user: UserValue, location: string, next: string)
    requires AuthGuard(false, user, location).Redirect?
    ensures AuthGuard(false, user, location).to == AdminHomePath ==> AdminRoute(false, user, next) == Render
    ensures AuthGuard(false, user, location).to == HomePath ==> UserRoute(false, user, next) == Render
  {
  }

  /** Every decision is one of the three kinds, and a redirect goes to one of
      the three fixed paths. */
  lemma DecisionsAreFixedPaths(allowedRoles: seq<string>, isLoading: bool, user: UserValue, location: string)
    ensures var d := ProtectedRoute(allowedRoles, isLoading, user, location);
      d.Redirect? ==> d.to == SignInPath || d.to == HomePath
    ensures var d := AuthGuard(isLoading, user, location);
      d.Redirect? ==> d.to == AdminHomePath || d.to == HomePath
  {
  }
}
