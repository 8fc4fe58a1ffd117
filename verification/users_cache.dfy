/** The users hook: the cached user list under the query key
    `"all-users-list"`, and three optimistic mutations (add roles, remove
    roles, toggle enabled) that patch the cache before the request, keep a
    snapshot, and write the snapshot back when the request fails. The
    query cache is a map from key to cached value; an absent key is
    `undefined`. */
module UsersCache {
  import opened Wrappers
  import opened Text
  import opened Http

  datatype ApiRole = ApiRole(id: int, name: string)

  datatype UserRecord = UserRecord(
    id: int,
    email: string,
    name: string,
    enabled: bool,
    createdAt: string,
    updatedAt: string,
    roles: seq<ApiRole>)

  datatype UsersResponse = UsersResponse(data: seq<UserRecord>)

  type Cache = map<string, UsersResponse>

  /** The key the list is fetched and patched under. */
  const UsersKey := "all-users-list"

  /** The key the add-roles rollback writes to. */
  const StaleKey := "users"

  function GetQueryData(cache: Cache, key: string): Option<UsersResponse> {
    if key in cache then Some(cache[key]) else None
  }

  /** `setQueryData(key, value)`; the query library ignores an `undefined`
      value, so writing an absent snapshot changes nothing. */
  function SetQueryData(cache: Cache, key: string, value: Option<UsersResponse>): (r: Cache)
    ensures value.Some? ==> r == cache[key := value.value]
    ensures value.None? ==> r == cache
  {
    match value
    case Some(v) => cache[key := v]
    case None => cache
  }

  // ------------------------------------------------------------ transforms

  /** The add-roles and remove-roles updater: the user whose id matches the
      edited user gets the edited user's roles; every other user, the order
      and the length are kept. An absent entry becomes an empty list. */
  function SetUserRoles(prev: Option<UsersResponse>, editingUser: UserRecord): (r: UsersResponse)
    ensures prev.None? ==> r.data == []
    ensures prev.Some? ==> |r.data| == |prev.value.data|
    ensures prev.Some? ==> forall k :: 0 <= k < |r.data| ==>
      var u := prev.value.data[k];
      && (u.id == editingUser.id ==> r.data[k] == u.(roles := editingUser.roles))
      && (u.id != editingUser.id ==> r.data[k] == u)
  {
    match prev
    case None => UsersResponse([])
    case Some(resp) =>
      UsersResponse(seq(|resp.data|, k requires 0 <= k < |resp.data| =>
        var u := resp.data[k];
        if u.id == editingUser.id then u.(roles := editingUser.roles) else u))
  }

  /** The toggle-status updater: flips `enabled` on the users with the given
      id and nothing else. An absent entry becomes an empty list. */
  function ToggleEnabled(prev: Option<UsersResponse>, id: int): (r: UsersResponse)
    ensures prev.None? ==> r.data == []
    ensures prev.Some? ==> |r.data| == |prev.value.data|
    ensures prev.Some? ==> forall k :: 0 <= k < |r.data| ==>
      var u := prev.value.data[k];
      && r.data[k].enabled == (if u.id == id then !u.enabled else u.enabled)
      && r.data[k] == u.(enabled := r.data[k].enabled)
  {
    match prev
    case None => UsersResponse([])
    case Some(resp) =>
      UsersResponse(seq(|resp.data|, k requires 0 <= k < |resp.data| =>
        var u := resp.data[k];
        if u.id == id then u.(enabled := !u.enabled) else u))
  }

  /** Toggling the same id twice gives the list back. */
  lemma ToggleEnabledTwice(resp: UsersResponse, id: int)
    ensures ToggleEnabled(Some(ToggleEnabled(Some(resp), id)), id) == resp
  {
    var once := ToggleEnabled(Some(resp), id);
    var twice := ToggleEnabled(Some(once), id);
    assert |twice.data| == |resp.data|;
    forall k | 0 <= k < |resp.data| ensures twice.data[k] == resp.data[k] {
      assert once.data[k].id == resp.data[k].id;
    }
  }

  /** Setting the same roles twice is setting them once. */
  lemma SetUserRolesIdempotent(resp: UsersResponse, editingUser: UserRecord)
    ensures SetUserRoles(Some(SetUserRoles(Some(resp), editingUser)), editingUser)
         == SetUserRoles(Some(resp), editingUser)
  {
    var once := SetUserRoles(Some(resp), editingUser);
    var twice := SetUserRoles(Some(once), editingUser);
    forall k | 0 <= k < |once.data| ensures twice.data[k] == once.data[k] {
      assert once.data[k].id == resp.data[k].id;
    }
  }

  // ------------------------------------------------------------ requests

  /** The variables of the add-roles and remove-roles mutations. */
  datatype RolesVars = RolesVars(editingUser: UserRecord, roleIds: seq<ApiRole>)

  datatype RolesBody = RolesBody(userId: int, roleIds: seq<int>)

  /** A request the hook hands to the authenticated client; `path` is
      relative to the configured API base URL. */
  datatype HookRequest = HookRequest(path: string, verb: Method, body: Option<RolesBody>)

  /** `{ userId: editingUser.id, roleIds: roleIds.map(r => r.id) }`. */
  function RolesPayload(v: RolesVars): (b: RolesBody)
    ensures b.userId == v.editingUser.id
    ensures |b.roleIds| == |v.roleIds|
    ensures forall k :: 0 <= k < |v.roleIds| ==> b.roleIds[k] == v.roleIds[k].id
  {
    RolesBody(v.editingUser.id, seq(|v.roleIds|, k requires 0 <= k < |v.roleIds| => v.roleIds[k].id))
  }

  datatype Mutation =
    | AddRoles(vars: RolesVars)
    | RemoveRoles(vars: RolesVars)
    | ToggleStatus(userId: int)

  /** The request each mutation sends. */
  function RequestFor(m: Mutation): (r: HookRequest)
    ensures m.AddRoles? ==> r == HookRequest("/v1/admin/add-multiple-role", POST, Some(RolesPayload(m.vars)))
    ensures m.RemoveRoles? ==> r == HookRequest("/v1/admin/remove-multiple-role", DELETE, Some(RolesPayload(m.vars)))
    ensures m.ToggleStatus? ==> r.verb == PUT && r.body.None?
    ensures m.ToggleStatus? ==> r.path == "/v1/admin/users/enable/" + IntToString(m.userId)
  {
    match m
    case AddRoles(v) => HookRequest("/v1/admin/add-multiple-role", POST, Some(RolesPayload(v)))
    case RemoveRoles(v) => HookRequest("/v1/admin/remove-multiple-role", DELETE, Some(RolesPayload(v)))
    case ToggleStatus(id) => HookRequest("/v1/admin/users/enable/" + IntToString(id), PUT, None)
  }

  // ------------------------------------------------------------ lifecycle

  /** `onMutate`: snapshot the list, then patch it. */
  function OnMutate(cache: Cache, m: Mutation): (r: (Cache, Option<UsersResponse>))
    ensures r.1 == GetQueryData(cache, UsersKey)
    ensures r.0.Keys == cache.Keys + {UsersKey}
    ensures forall key :: key in cache && key != UsersKey ==> r.0[key] == cache[key]
  {
    var previous := GetQueryData(cache, UsersKey);
    var patched := match m
      case AddRoles(v) => SetUserRoles(previous, v.editingUser)
      case RemoveRoles(v) => SetUserRoles(previous, v.editingUser)
      case ToggleStatus(id) => ToggleEnabled(previous, id);
    (SetQueryData(cache, UsersKey, Some(patched)), previous)
  }

  /** `onError` as written: remove-roles and toggle write the snapshot back
      under the list's key, add-roles writes it under `"users"`. */
  function OnError(cache: Cache, m: Mutation, snapshot: Option<UsersResponse>): (r: Cache)
    ensures snapshot.None? ==> r == cache
    ensures m.AddRoles? ==> forall key :: key in cache && key != StaleKey ==> key in r && r[key] == cache[key]
    ensures !m.AddRoles? && snapshot.Some? ==> r == cache[UsersKey := snapshot.value]
  {
    if m.AddRoles? then SetQueryData(cache, StaleKey, snapshot)
    else SetQueryData(cache, UsersKey, snapshot)
  }

  /** `onError` writing the snapshot back under the list's key for all three. */
  function OnErrorFixed(cache: Cache, m: Mutation, snapshot: Option<UsersResponse>): (r: Cache)
    ensures snapshot.None? ==> r == cache
    ensures snapshot.Some? ==> r == cache[UsersKey := snapshot.value]
  {
    SetQueryData(cache, UsersKey, snapshot)
  }

  /** One mutation from `onMutate` to settling. There is no `onSettled`
      refetch, so a success keeps the optimistic list. */
  function RunMutation(cache: Cache, m: Mutation, failed: bool): (r: Cache)
    ensures cache.Keys <= r.Keys
    ensures !failed ==> r == OnMutate(cache, m).0
    ensures failed && !m.AddRoles? && UsersKey in cache ==> r == cache
    ensures failed && m.AddRoles? && UsersKey in cache ==>
      && r[UsersKey] == SetUserRoles(Some(cache[UsersKey]), m.vars.editingUser)
      && StaleKey in r && r[StaleKey] == cache[UsersKey]
  {
    var (patched, snapshot) := OnMutate(cache, m);
    if failed then OnError(patched, m, snapshot) else patched
  }

  /** One mutation with the rollback under the list's key. */
  function RunMutationFixed(cache: Cache, m: Mutation, failed: bool): (r: Cache)
    ensures !failed ==> r == OnMutate(cache, m).0
    ensures failed && UsersKey in cache ==> r == cache
  {
    var (patched, snapshot) := OnMutate(cache, m);
    if failed then OnErrorFixed(patched, m, snapshot) else patched
  }

  /** A failed remove-roles or toggle restores the cache exactly; when the
      list was not cached, the failure leaves the optimistic empty list. */
  lemma RollbackRestores(cache: Cache, m: Mutation)
    requires !m.AddRoles?
    ensures UsersKey in cache ==> RunMutation(cache, m, true) == cache
    ensures UsersKey !in cache ==> RunMutation(cache, m, true) == cache[UsersKey := UsersResponse([])]
  {
  }

  /** A failed add-roles leaves the optimistic list in place whenever the
      patch changed it, and plants the snapshot under `"users"`. */
  lemma AddRolesRollbackMisses(cache: Cache, v: RolesVars)
    requires UsersKey in cache
    requires SetUserRoles(Some(cache[UsersKey]), v.editingUser) != cache[UsersKey]
    ensures var after := RunMutation(cache, AddRoles(v), true);
      && after[UsersKey] != cache[UsersKey]
      && after[UsersKey] == SetUserRoles(Some(cache[UsersKey]), v.editingUser)
      && after[StaleKey] == cache[UsersKey]
  {
  }

  /** A concrete case: the cached user 1 has no roles, the edit gives it one,
      the request fails, and the list still shows the role. */
  lemma AddRolesRollbackExample()
    ensures var user := UserRecord(1, "a@b.co", "A", true, "", "", []);
      var edited := user.(roles := [ApiRole(7, "ROLE_ADMIN")]);
      var cache := map[UsersKey := UsersResponse([user])];
      RunMutation(cache, AddRoles(RolesVars(edited, [ApiRole(7, "ROLE_ADMIN")])), true)[UsersKey]
        == UsersResponse([edited])
  {
  }

  /** With the rollback under the right key every failed mutation restores
      a cached list exactly. */
  lemma RollbackFixedRestores(cache: Cache, m: Mutation)
    requires UsersKey in cache
    ensures RunMutationFixed(cache, m, true) == cache
  {
  }

  /** A successful mutation keeps the optimistic patch. */
  lemma SuccessKeepsPatch(cache: Cache, m: Mutation)
    ensures RunMutation(cache, m, false) == OnMutate(cache, m).0
    ensures RunMutation(cache, m, false) == RunMutationFixed(cache, m, false)
  {
  }

  /** The optimistic patch ignores `roleIds` and is the same for adding and
      removing roles: both install `editingUser.roles`. */
  lemma PatchIgnoresRoleIds(cache: Cache, u: UserRecord, ids1: seq<ApiRole>, ids2: seq<ApiRole>)
    ensures OnMutate(cache, AddRoles(RolesVars(u, ids1))) == OnMutate(cache, AddRoles(RolesVars(u, ids2)))
    ensures OnMutate(cache, AddRoles(RolesVars(u, ids1))) == OnMutate(cache, RemoveRoles(RolesVars(u, ids2)))
  {
  }

  /** `usersResponse?.data || []`: the cached list, or empty. */
  function UsersOf(resp: Option<UsersResponse>): (users: seq<UserRecord>)
    ensures resp.None? ==> users == []
    ensures resp.Some? ==> users == resp.value.data
  {
    if resp.Some? then resp.value.data else []
  }
}
