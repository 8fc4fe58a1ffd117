/** The filter bar above the user table: clearing the filters, the two
    selects whose placeholder item `"any"` stands for "no filter", and the
    badge counting active filters. The state is the dashboard's `Criteria`. */
module UserFilters {
  import opened Wrappers
  import opened Lists
  import opened UsersCache
  import opened Dashboard

  /** JavaScript truthiness of a `string | null`: null and `""` are falsy. */
  predicate Truthy(v: Option<string>) {
    v.Some? && v.value != ""
  }

  /** `clearFilters`: both selects go back to null, the search stays. */
  function ClearFilters(c: Criteria): (r: Criteria)
    ensures r.status.None? && r.role.None?
    ensures r.searchTerm == c.searchTerm
  {
    c.(status := None, role := None)
  }

  /** The value a select shows: `filter || "any"`. */
  function Displayed(v: Option<string>): (shown: string)
    ensures Truthy(v) ==> shown == v.value
    ensures !Truthy(v) ==> shown == "any"
  {
    if Truthy(v) then v.value else "any"
  }

  /** `onValueChange`: `"any"` clears the filter, anything else is stored
      as chosen. */
  function OnValueChange(value: string): (r: Option<string>)
    ensures r.None? <==> value == "any"
    ensures r.Some? ==> r.value == value
  {
    if value == "any" then None else Some(value)
  }

  /** The number on the badge: one for each truthy filter. */
  function ActiveCount(c: Criteria): (n: nat)
    ensures n <= 2
    ensures n == 0 <==> !Truthy(c.status) && !Truthy(c.role)
    ensures n == 2 <==> Truthy(c.status) && Truthy(c.role)
  {
    (if Truthy(c.status) then 1 else 0) + (if Truthy(c.role) then 1 else 0)
  }

  /** The badge is rendered when `statusFilter || roleFilter` is truthy. */
  predicate BadgeShown(c: Criteria) {
    Truthy(c.status) || Truthy(c.role)
  }

  /** The badge is shown exactly when its number is positive. */
  lemma BadgeShownIffCount(c: Criteria)
    ensures BadgeShown(c) <==> ActiveCount(c) > 0
  {
  }

  /** After clearing, the badge is gone and the list is filtered by the
      search alone, so it can only grow. */
  lemma ClearWidens(users: seq<UserRecord>, c: Criteria)
    ensures ActiveCount(ClearFilters(c)) == 0 && !BadgeShown(ClearFilters(c))
    ensures FilterUsers(users, ClearFilters(c)) == FilterUsers(users, Criteria(c.searchTerm, None, None))
    ensures Subseq(FilterUsers(users, c), FilterUsers(users, ClearFilters(c)))
  {
    NarrowingShrinks(users, ClearFilters(c), c);
  }

  /** Choosing the item a select currently shows changes nothing, for every
      value a select can have been given (the items are never `""`). */
  lemma ReselectIsStable(choice: string)
    requires choice != ""
    ensures OnValueChange(Displayed(OnValueChange(choice))) == OnValueChange(choice)
  {
  }

  /** From the initial null filter, re-selecting keeps it null. */
  lemma ReselectNull()
    ensures OnValueChange(Displayed(None)) == None
  {
  }
}
