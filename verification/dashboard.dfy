/** The dashboard's user list filter: a free-text search over name, email
    and id, an optional status filter and an optional role filter, all
    three required at once. */
module Dashboard {
  import opened Wrappers
  import opened Text
  import opened Lists
  import opened UsersCache

  /** The search box: an empty term matches everyone; otherwise the
      lower-cased term must occur in the lower-cased name, email or decimal
      id. */
  predicate MatchesSearch(u: UserRecord, term: string) {
    var t := ToLower(term);
    || term == ""
    || Contains(ToLower(u.name), t)
    || Contains(ToLower(u.email), t)
    || Contains(ToLower(IntToString(u.id)), t)
  }

  /** No status filter matches everyone; `"active"` keeps enabled users and
      every other value keeps disabled ones. */
  predicate MatchesStatus(u: UserRecord, status: Option<string>) {
    status.None? || (if status.value == "active" then u.enabled else !u.enabled)
  }

  /** Some role of the user carries exactly this name (case-sensitive). */
  predicate HasRoleNamed(u: UserRecord, name: string) {
    exists k :: 0 <= k < |u.roles| && u.roles[k].name == name
  }

  predicate MatchesRole(u: UserRecord, role: Option<string>) {
    role.None? || HasRoleNamed(u, role.value)
  }

  /** The three pieces of filter state the page holds. */
  datatype Criteria = Criteria(searchTerm: string, status: Option<string>, role: Option<string>)

  const NoCriteria := Criteria("", None, None)

  function Keep(c: Criteria): UserRecord -> bool {
    u => MatchesSearch(u, c.searchTerm) && MatchesStatus(u, c.status) && MatchesRole(u, c.role)
  }

  /** `filteredUsers`: the users meeting all three conditions, in their
      original order; with no criteria, the whole list. */
  function FilterUsers(users: seq<UserRecord>, c: Criteria): (r: seq<UserRecord>)
    ensures Subseq(r, users)
    ensures forall u :: u in r <==>
      u in users && MatchesSearch(u, c.searchTerm) && MatchesStatus(u, c.status) && MatchesRole(u, c.role)
    ensures c == NoCriteria ==> r == users
    ensures forall u :: Occurrences(r, u) == if Keep(c)(u) then Occurrences(users, u) else 0
  {
    FilterIsSubseq(users, Keep(c));
    NoCriteriaKeepsAll(users, c);
    Filter(users, Keep(c))
  }

  lemma NoCriteriaKeepsAll(users: seq<UserRecord>, c: Criteria)
    ensures c == NoCriteria ==> Filter(users, Keep(c)) == users
  {
    if c == NoCriteria {
      FilterAll(users, Keep(c));
    }
  }

  /** `c2` filters at least as much as `c1`: each of its conditions is
      either the same as in `c1` or set where `c1`'s is unset. */
  predicate Narrows(c2: Criteria, c1: Criteria) {
    && (c2.searchTerm == c1.searchTerm || c1.searchTerm == "")
    && (c2.status == c1.status || c1.status.None?)
    && (c2.role == c1.role || c1.role.None?)
  }

  /** Adding a filter can only shrink the list: the narrower result is the
      wider result filtered again, hence a subsequence of it. */
  lemma NarrowingShrinks(users: seq<UserRecord>, c1: Criteria, c2: Criteria)
    requires Narrows(c2, c1)
    ensures FilterUsers(users, c2) == Filter(FilterUsers(users, c1), Keep(c2))
    ensures Subseq(FilterUsers(users, c2), FilterUsers(users, c1))
  {
    forall k | 0 <= k < |users| && Keep(c2)(users[k]) ensures Keep(c1)(users[k]) {
    }
    FilterStricter(users, Keep(c1), Keep(c2));
    FilterIsSubseq(FilterUsers(users, c1), Keep(c2));
  }

  /** The search is case-insensitive: the term and its lower-case form
      select the same users. */
  lemma SearchIgnoresCase(u: UserRecord, term: string)
    ensures MatchesSearch(u, term) == MatchesSearch(u, ToLower(term))
  {
    ToLowerIdempotent(term);
  }

  /** A user is found by its own name, its own email and its own decimal id. */
  lemma SearchFindsOwnFields(u: UserRecord)
    ensures MatchesSearch(u, u.name)
    ensures MatchesSearch(u, u.email)
    ensures MatchesSearch(u, IntToString(u.id))
  {
    ContainsAt(ToLower(u.name), ToLower(u.name), 0);
    ContainsAt(ToLower(u.email), ToLower(u.email), 0);
    ContainsAt(ToLower(IntToString(u.id)), ToLower(IntToString(u.id)), 0);
  }

  /** Setting a status filter splits the list: `"active"` and any other
      value select complementary sets of users. */
  lemma StatusFiltersPartition(users: seq<UserRecord>, other: string)
    requires other != "active"
    ensures forall u :: u in users ==>
      ((u in FilterUsers(users, Criteria("", Some("active"), None)))
       <==> (u !in FilterUsers(users, Criteria("", Some(other), None))))
  {
  }
}
