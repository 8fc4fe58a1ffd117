/** The signed-in principal as the client holds it, the browser storage it
    is persisted in, and the session effects several modules share: the
    storage map, the `user` state of the auth provider and the log of
    navigations. */
module Identity {
  import opened Wrappers

  datatype RoleRef = RoleRef(id: string, name: string)

  datatype Principal = Principal(id: int, email: string, name: string, roles: seq<RoleRef>)

  /** The `user` state. It starts `null`; a response without a `user` field
      puts `undefined` in it; a parsed JSON string such as `"No data"` is a
      value with no `roles`. */
  datatype UserValue = Null | Undefined | Account(principal: Principal) | Opaque(text: string)

  /** `!!user`. */
  function IsAuthenticated(u: UserValue): (b: bool)
    ensures u.Null? || u.Undefined? ==> !b
    ensures u.Account? ==> b
    ensures u.Opaque? ==> (b <==> u.text != "")
    ensures !b ==> RolesOf(u) == []
  {
    u.Account? || (u.Opaque? && u.text != "")
  }

  /** `user?.roles || []`: only an account has roles. */
  function RolesOf(u: UserValue): (roles: seq<RoleRef>)
    ensures !u.Account? ==> roles == []
  {
    if u.Account? then u.principal.roles else []
  }

  /** Some role of the user is named exactly `name`. */
  predicate HasRole(u: UserValue, name: string) {
    exists k :: 0 <= k < |RolesOf(u)| && RolesOf(u)[k].name == name
  }

  /** A stored item: a plain string, or the `JSON.stringify` of a user value
      (`JSON.stringify(undefined)` is stored as the text `undefined`). */
  datatype Entry = Text(s: string) | Serialized(value: UserValue)

  /** `localStorage`: key to item; an absent key reads as `null`. */
  type Storage = map<string, Entry>

  const UserKey := "user"
  const TokenKey := "token"
  const TempTokenKey := "temp-token"
  const AccessTokenKey := "access-token"
  const RefreshTokenKey := "refresh-token"
  const ResetTokenKey := "reset_password_token"

  /** `localStorage.getItem(key)` is truthy: present and not the empty string. */
  predicate HasItem(st: Storage, key: string) {
    key in st && (st[key].Text? ==> st[key].s != "")
  }

  /** `localStorage.getItem(key) || ""` for a key that holds plain text. */
  function TextItem(st: Storage, key: string): (s: string)
    ensures key !in st ==> s == ""
    ensures key in st && st[key].Text? ==> s == st[key].s
  {
    if key in st && st[key].Text? then st[key].s else ""
  }

  /** `JSON.parse` of a stored user: the text `undefined` and plain text are
      not JSON and throw; a serialised value parses back to itself. */
  function ParseUser(e: Entry): (r: Option<UserValue>)
    ensures r.Some? ==> e == Serialized(r.value) && r.value != Undefined
    ensures e.Serialized? && e.value != Undefined ==> r == Some(e.value)
  {
    match e
    case Serialized(v) => if v == Undefined then None else Some(v)
    case Text(_) => None
  }

  /** `localStorage.removeItem` of several keys. */
  function RemoveKeys(st: Storage, keys: set<string>): (r: Storage)
    ensures r.Keys == st.Keys - keys
    ensures forall k :: k in r ==> r[k] == st[k]
  {
    st - keys
  }

  /** The observable session effects: storage, the provider's `user` and the
      paths navigated to, oldest first. */
  datatype Env = Env(storage: Storage, user: UserValue, nav: seq<string>)

  const SignInPath := "/auth/sign-in"
  const HomePath := "/"
  const AdminHomePath := "/admin/dashboard"
}
