/** The role selection page: after sign-in a user picks which of their
    roles to work under, and the page navigates to that role's home. */
module RoleSelection {
  import opened Wrappers
  import opened Lists
  import opened Identity

  /** The keys of the role table, in declaration order. */
  const RoleKeys: seq<string> :=
    ["ROLE_ADMIN", "ROLE_MANAGER", "ROLE_HR", "ROLE_SUPPORT", "ROLE_USER", "ROLE_SUPERVISOR"]

  /** The `route` of a role table entry. */
  function RouteOf(role: string): (r: Option<string>)
    ensures r.Some? <==> role in RoleKeys
  {
    if role == "ROLE_ADMIN" then Some("/admin/dashboard")
    else if role == "ROLE_MANAGER" then Some("/manager")
    else if role == "ROLE_HR" then Some("/hr")
    else if role == "ROLE_SUPPORT" then Some("/support")
    else if role == "ROLE_USER" then Some("/")
    else if role == "ROLE_SUPERVISOR" then Some("/supervisor")
    else None
  }

  /** The six routes are distinct, so the route names the role. */
  lemma RoutesDistinct(a: string, b: string)
    requires a in RoleKeys && b in RoleKeys && a != b
    ensures RouteOf(a) != RouteOf(b)
  {
  }

  function RoleNames(roles: seq<RoleRef>): (names: seq<string>)
    ensures |names| == |roles|
    ensures forall k :: 0 <= k < |roles| ==> names[k] == roles[k].name
  {
    seq(|roles|, k requires 0 <= k < |roles| => roles[k].name)
  }

  function IsRoleKey(role: string): bool {
    role in RoleKeys
  }

  /** What the page does on render. `Crashed` is the type error of reading
      `roles` through a user that has none. */
  datatype View =
    | ToSignIn
    | Crashed
    | Page(offered: seq<string>, redirect: Option<string>)

  /** The page for a user; `from` is `location.state?.from?.pathname`. The
      user's role names that are table keys, in order, are offered after
      `ROLE_USER`; when there are none the page also navigates back to
      `from`, or home when that is missing or empty. */
  function Show(user: UserValue, from: Option<string>): (v: View)
    ensures user.Null? <==> v == ToSignIn
    ensures user.Undefined? || user.Opaque? <==> v == Crashed
    ensures user.Account? ==> v.Page?
    ensures v.Page? ==> |v.offered| >= 1 && v.offered[0] == "ROLE_USER"
    ensures v.Page? ==> Subseq(v.offered[1..], RoleNames(user.principal.roles))
    ensures v.Page? ==> forall r :: r in v.offered[1..] <==> r in RoleNames(user.principal.roles) && r in RoleKeys
    ensures v.Page? ==> forall r ::
      Occurrences(v.offered[1..], r) == if r in RoleKeys then Occurrences(RoleNames(user.principal.roles), r) else 0
    ensures v.Page? ==> (v.redirect.Some? <==> |v.offered| == 1)
    ensures v.Page? && v.redirect.Some? ==>
      v.redirect.value == (if from.Some? && from.value != "" then from.value else "/")
  {
    match user
    case Null => ToSignIn
    case Undefined => Crashed
    case Opaque(_) => Crashed
    case Account(p) =>
      var names := RoleNames(p.roles);
      FilterIsSubseq(names, IsRoleKey);
      var userRoles := Filter(names, IsRoleKey);
      assert (["ROLE_USER"] + userRoles)[1..] == userRoles;
      var redirect := if |userRoles| == 0 then Some(if from.Some? && from.value != "" then from.value else "/") else None;
      Page(["ROLE_USER"] + userRoles, redirect)
  }

  /** Every role the page offers has a table entry, so looking up its route
      cannot fail. */
  lemma OfferedHaveRoutes(user: UserValue, from: Option<string>)
    requires Show(user, from).Page?
    ensures forall r :: r in Show(user, from).offered ==> RouteOf(r).Some?
  {
    var v := Show(user, from);
    forall r | r in v.offered ensures r in RoleKeys {
      if r != "ROLE_USER" {
        assert v.offered == [v.offered[0]] + v.offered[1..];
        assert r in v.offered[1..];
      }
    }
  }

  /** A user who holds `ROLE_USER` is offered it twice. */
  lemma RoleUserOfferedTwice(p: Principal, from: Option<string>)
    requires "ROLE_USER" in RoleNames(p.roles)
    ensures Occurrences(Show(Account(p), from).offered, "ROLE_USER") >= 2
  {
    var v := Show(Account(p), from);
    assert "ROLE_USER" in v.offered[1..];
    assert v.offered == ["ROLE_USER"] + v.offered[1..];
    OccurrencesAppend(["ROLE_USER"], v.offered[1..], "ROLE_USER");
  }

  /** `handleContinue`: nothing without a selection; otherwise the path to
      navigate to is the selected role's route. */
  function Continue(offered: seq<string>, selected: Option<string>): (nav: Option<string>)
    requires forall r :: r in offered ==> r in RoleKeys
    requires selected.Some? ==> selected.value in offered
    ensures selected.None? ==> nav.None?
    ensures selected.Some? ==> nav.Some? && nav == RouteOf(selected.value)
  {
    match selected
    case None => None
    case Some(role) => RouteOf(role)
  }

  /** `ROLE_USER`, offered to everyone, leads home. */
  lemma ContinueHome(p: Principal, from: Option<string>)
    ensures Continue(Show(Account(p), from).offered, Some("ROLE_USER")) == Some("/")
  {
    OfferedHaveRoutes(Account(p), from);
  }

  /** An admin is offered the admin role, and choosing it leads to the
      admin dashboard. */
  lemma ContinueAdmin(p: Principal, from: Option<string>)
    requires "ROLE_ADMIN" in RoleNames(p.roles)
    ensures "ROLE_ADMIN" in Show(Account(p), from).offered
    ensures Continue(Show(Account(p), from).offered, Some("ROLE_ADMIN")) == Some(AdminHomePath)
  {
    var v := Show(Account(p), from);
    OfferedHaveRoutes(Account(p), from);
    assert "ROLE_ADMIN" in v.offered[1..];
    assert v.offered == [v.offered[0]] + v.offered[1..];
  }
}
