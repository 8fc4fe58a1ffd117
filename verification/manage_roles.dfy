/** The Manage Roles dialog: one checkbox per known role, ticked when the
    user holds it; ticking or unticking edits the user's role list. */
module ManageRoles {
  import opened Wrappers
  import opened Lists

  /** The five role labels of the admin fixtures. */
  datatype UserRole = Admin | Editor | Viewer | Manager | Support

  datatype UserStatus = Active | Inactive

  /** The admin fixtures' user record. */
  datatype AdminUser = AdminUser(
    id: string,
    name: string,
    email: string,
    status: UserStatus,
    roles: seq<UserRole>,
    registeredDate: string,
    updatedDate: string)

  /** `handleRoleToggle`: a held role is removed wherever it occurs, a
      missing role is appended; only `roles` changes. */
  function ToggleRole(user: AdminUser, role: UserRole): (r: AdminUser)
    ensures r == user.(roles := r.roles)
    ensures role in user.roles ==> role !in r.roles && Subseq(r.roles, user.roles)
    ensures role in user.roles ==> forall x :: x != role ==> (x in r.roles <==> x in user.roles)
    ensures role in user.roles ==> |r.roles| == |user.roles| - Occurrences(user.roles, role)
    ensures role in user.roles ==> forall x :: Occurrences(r.roles, x) == if x == role then 0 else Occurrences(user.roles, x)
    ensures role !in user.roles ==> r.roles == user.roles + [role]
  {
    FilterOutLength(user.roles, role);
    var roles := ToggleMember(user.roles, role);
    assert role !in user.roles ==> roles == user.roles + [role];
    user.(roles := roles)
  }

  /** Ticking a box and unticking it again restores the user. */
  lemma ToggleRoleAbsentTwice(user: AdminUser, role: UserRole)
    requires role !in user.roles
    ensures ToggleRole(ToggleRole(user, role), role) == user
  {
    ToggleAbsentTwice(user.roles, role);
  }

  /** The dialog's checkboxes, one per entry of `allRoles`; nothing is
      rendered without a user. */
  function Checkboxes(user: Option<AdminUser>, allRoles: seq<UserRole>): (boxes: Option<seq<bool>>)
    ensures user.None? <==> boxes.None?
    ensures boxes.Some? ==> |boxes.value| == |allRoles|
    ensures boxes.Some? ==> forall k :: 0 <= k < |allRoles| ==>
      (boxes.value[k] <==> allRoles[k] in user.value.roles)
  {
    match user
    case None => None
    case Some(u) => Some(seq(|allRoles|, k requires 0 <= k < |allRoles| => allRoles[k] in u.roles))
  }

  /** Toggling a role flips its checkbox and leaves every other box as it was. */
  lemma ToggleFlipsOneBox(user: AdminUser, role: UserRole, allRoles: seq<UserRole>)
    ensures var before := Checkboxes(Some(user), allRoles).value;
      var after := Checkboxes(Some(ToggleRole(user, role)), allRoles).value;
      forall k :: 0 <= k < |allRoles| ==>
        after[k] == (if allRoles[k] == role then !before[k] else before[k])
  {
  }
}
