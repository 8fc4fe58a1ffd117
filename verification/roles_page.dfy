/** The role-management page: an in-memory list of roles seeded with five
    sample roles, a search box, add / edit / delete dialogs and the
    permission checkboxes of the add and edit forms. */
module RolesPage {
  import opened Wrappers
  import opened Text
  import opened Lists

  datatype Role = Role(
    id: string,
    name: string,
    description: string,
    permissions: seq<string>,
    usersCount: int)

  /** The page's seed data. */
  const InitialRoles: seq<Role> := [
    Role("ROLE001", "Admin", "Full system access with all permissions",
         ["read", "write", "delete", "manage_users", "manage_roles"], 2),
    Role("ROLE002", "Editor", "Can edit content but cannot manage users or roles",
         ["read", "write"], 3),
    Role("ROLE003", "Viewer", "Read-only access to the system", ["read"], 3),
    Role("ROLE004", "Manager", "Can manage content and users but not roles",
         ["read", "write", "delete", "manage_users"], 0),
    Role("ROLE005", "Support", "Customer support access", ["read", "write"], 0)
  ]

  /** The seed list: five roles `ROLE001` to `ROLE005`, of which only the
      last two have no users. */
  lemma InitialRolesShape()
    ensures Ids(InitialRoles) == ["ROLE001", "ROLE002", "ROLE003", "ROLE004", "ROLE005"]
    ensures forall k :: 0 <= k < |InitialRoles| ==> (InitialRoles[k].usersCount == 0 <==> k >= 3)
  {
  }

  /** The empty add-role form the page starts with and resets to. */
  const BlankRole := Role("", "", "", [], 0)

  function Ids(roles: seq<Role>): (ids: seq<string>)
    ensures |ids| == |roles|
    ensures forall k :: 0 <= k < |roles| ==> ids[k] == roles[k].id
  {
    seq(|roles|, k requires 0 <= k < |roles| => roles[k].id)
  }

  // ---------------------------------------------------------------- search

  predicate RoleMatches(role: Role, term: string) {
    term == ""
    || Contains(ToLower(role.name), ToLower(term))
    || Contains(ToLower(role.description), ToLower(term))
  }

  /** `filteredRoles`: with an empty term every role in order; otherwise the
      roles whose lower-cased name or description contains the lower-cased
      term, in their original order. The empty-term shortcut is redundant:
      every string contains the empty string. */
  function FilteredRoles(roles: seq<Role>, term: string): (r: seq<Role>)
    ensures term == "" ==> r == roles
    ensures forall role :: role in r <==>
      role in roles
      && (Contains(ToLower(role.name), ToLower(term)) || Contains(ToLower(role.description), ToLower(term)))
    ensures Subseq(r, roles)
    ensures forall role ::
      Occurrences(r, role) == if RoleMatches(role, term) then Occurrences(roles, role) else 0
  {
    FilterIsSubseq(roles, role => RoleMatches(role, term));
    EmptyTermMatchesAll(roles, term);
    Filter(roles, role => RoleMatches(role, term))
  }

  lemma EmptyTermMatchesAll(roles: seq<Role>, term: string)
    ensures term == "" ==> Filter(roles, role => RoleMatches(role, term)) == roles
    ensures forall role :: RoleMatches(role, term) <==>
      Contains(ToLower(role.name), ToLower(term)) || Contains(ToLower(role.description), ToLower(term))
  {
    if term == "" {
      FilterAll(roles, role => RoleMatches(role, term));
    }
    forall role: Role | term == "" ensures Contains(ToLower(role.name), ToLower(term)) {
      assert ToLower(term) == "";
      ContainsEmpty(ToLower(role.name));
    }
  }

  // ---------------------------------------------------------------- ids

  /** `ROLE` followed by `String(n).padStart(3, "0")`. */
  function RoleIdFor(n: nat): (id: string)
    ensures ParseRoleId(id) == Some(n)
    ensures |id| >= 7 && id[..4] == "ROLE"
  {
    var digits := NatToString(n);
    var k := if |digits| < 3 then 3 - |digits| else 0;
    PadStartIsZeros(digits);
    LeadingZeros(k, digits);
    NatToStringRoundTrip(n);
    var id := "ROLE" + PadStart(digits, 3, '0');
    assert id[4..] == Zeros(k) + digits;
    id
  }

  /** The id `handleAddRole` gives the new role: one more than the number of
      roles, which is fresh only while no role has been deleted. */
  function NextRoleId(roles: seq<Role>): (id: string)
    ensures ParseRoleId(id) == Some(|roles| + 1)
  {
    RoleIdFor(|roles| + 1)
  }

  /** Reads the number back out of a `ROLEnnn` id. */
  function ParseRoleId(id: string): Option<nat> {
    if |id| > 4 && id[..4] == "ROLE" && AllDigits(id[4..]) then Some(DigitsValue(id[4..]))
    else None
  }

  lemma PadStartIsZeros(s: string)
    ensures PadStart(s, 3, '0') == Zeros(if |s| < 3 then 3 - |s| else 0) + s
  {
    var r := PadStart(s, 3, '0');
    var z := Zeros(if |s| < 3 then 3 - |s| else 0);
    assert |r| == |z + s|;
    forall i | 0 <= i < |r| ensures r[i] == (z + s)[i] {
      if i >= |z| {
        assert r[|r| - |s|..][i - |z|] == s[i - |z|];
      }
    }
  }

  /** Different numbers give different ids. */
  lemma RoleIdInjective(m: nat, n: nat)
    requires RoleIdFor(m) == RoleIdFor(n)
    ensures m == n
  {
  }

  // ---------------------------------------------------------------- add

  /** `handleAddRole`: appends the form's role under the generated id and
      resets the form. */
  function AddRole(roles: seq<Role>, form: Role): (r: (seq<Role>, Role))
    ensures |r.0| == |roles| + 1 && r.0[..|roles|] == roles
    ensures r.0[|roles|] == form.(id := NextRoleId(roles))
    ensures r.1 == BlankRole
  {
    (roles + [form.(id := NextRoleId(roles))], BlankRole)
  }

  /** The generated id encodes the new length of the list. */
  lemma AddRoleIdEncodesLength(roles: seq<Role>, form: Role)
    ensures var added := AddRole(roles, form).0;
      ParseRoleId(added[|added| - 1].id) == Some(|added|)
  {
  }

  lemma FiveIsRole005()
    ensures RoleIdFor(5) == "ROLE005"
  {
    assert NatToString(5) == "5";
  }

  /** Deleting ROLE004 from the seed list and then adding a role produces a
      second ROLE005. */
  lemma DuplicateIdAfterDelete(form: Role)
    ensures var added := AddRole(DeleteRole(InitialRoles, "ROLE004"), form).0;
      |added| == 5 && added[3].id == "ROLE005" && added[4].id == "ROLE005"
  {
    var kept := DeleteRole(InitialRoles, "ROLE004");
    DeleteRole004();
    assert |kept| == 4 && kept[3].id == "ROLE005";
    FiveIsRole005();
  }

  lemma DeleteRole004()
    ensures DeleteRole(InitialRoles, "ROLE004") == InitialRoles[..3] + [InitialRoles[4]]
  {
    assert InitialRoles == InitialRoles[..3] + [InitialRoles[3]] + [InitialRoles[4]];
    DeleteOne(InitialRoles[..3], InitialRoles[3], [InitialRoles[4]], "ROLE004");
  }

  lemma DeleteOne(a: seq<Role>, x: Role, b: seq<Role>, id: string)
    requires x.id == id
    requires forall k :: 0 <= k < |a| ==> a[k].id != id
    requires forall k :: 0 <= k < |b| ==> b[k].id != id
    ensures DeleteRole(a + [x] + b, id) == a + b
  {
    var p := OtherId(id);
    assert forall k :: 0 <= k < |a| ==> p(a[k]);
    assert forall k :: 0 <= k < |b| ==> p(b[k]);
    FilterAll(a, p);
    FilterAll(b, p);
    assert !p(x);
    assert Filter([x], p) == [] by {
      assert [x][1..] == [];
    }
    FilterAppend(a, [x], p);
    assert Filter(a + [x], p) == a;
    FilterAppend(a + [x], b, p);
  }

  /** The largest number carried by an id of the form `ROLEnnn` (0 if none). */
  function MaxRoleNumber(roles: seq<Role>): (m: nat)
    ensures forall k :: 0 <= k < |roles| && ParseRoleId(roles[k].id).Some? ==>
      ParseRoleId(roles[k].id).value <= m
    decreases |roles|
  {
    if |roles| == 0 then 0
    else
      var last := ParseRoleId(roles[|roles| - 1].id).GetOr(0);
      var rest := MaxRoleNumber(roles[..|roles| - 1]);
      assert forall k :: 0 <= k < |roles| - 1 ==> roles[..|roles| - 1][k] == roles[k];
      if last > rest then last else rest
  }

  /** A corrected id: one more than the largest number in use. */
  function FreshRoleId(roles: seq<Role>): (id: string)
    ensures id !in Ids(roles)
  {
    var n := MaxRoleNumber(roles) + 1;
    RoleIdFor(n)
  }

  /** `handleAddRole` with the corrected id: the new id is fresh. */
  function AddRoleFresh(roles: seq<Role>, form: Role): (r: (seq<Role>, Role))
    ensures |r.0| == |roles| + 1 && r.0[..|roles|] == roles
    ensures r.0[|roles|] == form.(id := r.0[|roles|].id)
    ensures r.0[|roles|].id !in Ids(roles)
    ensures r.1 == BlankRole
  {
    (roles + [form.(id := FreshRoleId(roles))], BlankRole)
  }

  /** While no role has been deleted (the ids are ROLE001, ROLE002, ... in
      order) the corrected id is the one the page generates. */
  lemma {:induction false} FreshAgreesWithoutDeletes(roles: seq<Role>)
    requires forall k :: 0 <= k < |roles| ==> roles[k].id == RoleIdFor(k + 1)
    ensures MaxRoleNumber(roles) == |roles|
    ensures FreshRoleId(roles) == NextRoleId(roles)
    decreases |roles|
  {
    if |roles| > 0 {
      var init := roles[..|roles| - 1];
      assert forall k :: 0 <= k < |init| ==> init[k] == roles[k];
      FreshAgreesWithoutDeletes(init);
    }
  }

  // ---------------------------------------------------------------- edit

  /** `handleSaveRole`: every role with the edited id is replaced by the
      edited role; length, order, ids and all other roles are kept. */
  function SaveRole(roles: seq<Role>, edited: Role): (r: seq<Role>)
    ensures |r| == |roles|
    ensures Ids(r) == Ids(roles)
    ensures forall k :: 0 <= k < |roles| ==>
      (roles[k].id == edited.id ==> r[k] == edited) && (roles[k].id != edited.id ==> r[k] == roles[k])
  {
    seq(|roles|, k requires 0 <= k < |roles| => if roles[k].id == edited.id then edited else roles[k])
  }

  /** Saving the same edit twice is saving it once; saving under an id no
      role has changes nothing. */
  lemma SaveRoleIdempotent(roles: seq<Role>, edited: Role)
    ensures SaveRole(SaveRole(roles, edited), edited) == SaveRole(roles, edited)
    ensures edited.id !in Ids(roles) ==> SaveRole(roles, edited) == roles
  {
    if edited.id !in Ids(roles) {
      forall k | 0 <= k < |roles| ensures roles[k].id != edited.id {
        assert Ids(roles)[k] == roles[k].id;
      }
    }
  }

  // ---------------------------------------------------------------- delete

  /** The test `role.id !== id` of the delete filter. */
  function OtherId(id: string): Role -> bool {
    (role: Role) => role.id != id
  }

  /** `confirmDeleteRole`: removes every role with the target id and keeps
      the others in their original order. */
  function DeleteRole(roles: seq<Role>, id: string): (r: seq<Role>)
    ensures forall role :: role in r <==> role in roles && role.id != id
    ensures id !in Ids(r)
    ensures Subseq(r, roles)
    ensures forall role :: Occurrences(r, role) == if role.id != id then Occurrences(roles, role) else 0
  {
    FilterIsSubseq(roles, OtherId(id));
    var r := Filter(roles, OtherId(id));
    assert forall k :: 0 <= k < |r| ==> r[k] in r;
    r
  }

  /** The delete action is offered only for roles no user holds. */
  function DeleteEnabled(role: Role): (b: bool)
    ensures b <==> role.usersCount <= 0
  {
    !(role.usersCount > 0)
  }

  /** Of the seed roles only ROLE004 and ROLE005 can be deleted. */
  lemma InitialDeletable()
    ensures forall k :: 0 <= k < |InitialRoles| ==>
      (DeleteEnabled(InitialRoles[k]) <==> InitialRoles[k].id in {"ROLE004", "ROLE005"})
  {
  }

  // ---------------------------------------------------------------- forms

  datatype Target = NewForm | EditForm

  /** `togglePermission`: the permission is toggled on the chosen form
      (removed everywhere if present, appended if absent); only that form's
      `permissions` field changes and the other form is untouched. */
  function TogglePermission(permission: string, target: Target, newRole: Role, editingRole: Role): (r: (Role, Role))
    ensures target == NewForm ==> r.1 == editingRole && r.0 == newRole.(permissions := r.0.permissions)
    ensures target == EditForm ==> r.0 == newRole && r.1 == editingRole.(permissions := r.1.permissions)
    ensures var before := if target == NewForm then newRole.permissions else editingRole.permissions;
      var after := if target == NewForm then r.0.permissions else r.1.permissions;
      && (permission in before ==>
            && permission !in after
            && Subseq(after, before)
            && (forall q :: q != permission ==> (q in after <==> q in before))
            && |after| == |before| - Occurrences(before, permission)
            && forall q :: Occurrences(after, q) == if q == permission then 0 else Occurrences(before, q))
      && (permission !in before ==> after == before + [permission])
  {
    if target == NewForm then
      (newRole.(permissions := ToggleMember(newRole.permissions, permission)), editingRole)
    else
      (newRole, editingRole.(permissions := ToggleMember(editingRole.permissions, permission)))
  }

  /** Ticking an unticked permission and unticking it again restores the form. */
  lemma TogglePermissionTwice(permission: string, target: Target, newRole: Role, editingRole: Role)
    requires permission !in (if target == NewForm then newRole.permissions else editingRole.permissions)
    ensures var once := TogglePermission(permission, target, newRole, editingRole);
      TogglePermission(permission, target, once.0, once.1) == (newRole, editingRole)
  {
    if target == NewForm {
      ToggleAbsentTwice(newRole.permissions, permission);
    } else {
      ToggleAbsentTwice(editingRole.permissions, permission);
    }
  }

  /** The Add button: enabled when the form has a name, a description and at
      least one permission. */
  predicate AddEnabled(form: Role) {
    !(form.name == "" || form.description == "" || |form.permissions| == 0)
  }

  /** The Save button of the edit dialog: the same condition, and disabled
      when no role is being edited. */
  predicate SaveEnabled(editing: Option<Role>) {
    !(editing.None? || editing.value.name == "" || editing.value.description == ""
      || |editing.value.permissions| == 0)
  }

  /** Add and Save share one condition, and a role added through the enabled
      button is complete. */
  lemma SubmitConditions(roles: seq<Role>, form: Role)
    ensures SaveEnabled(Some(form)) == AddEnabled(form)
    ensures !SaveEnabled(None)
    ensures AddEnabled(form) ==>
      var added := AddRole(roles, form).0[|roles|];
      added.name != "" && added.description != "" && |added.permissions| > 0
  {
  }
}
