# An admin console's client logic, modelled in Dafny

The system is a React admin console written in TypeScript. It has an
authentication layer and administration pages:

- **Authentication layer:**
  - an auth provider that keeps the session in browser storage;
  - a cookie-based token renewal hook;
  - an authenticated request helper that renews once and retries once;
  - route guards;
  - a role selection page;
  - the sign-up, sign-in, forgotten-password, verification-code and
    new-password forms.
- **Administration pages:**
  - a role list edited in memory;
  - a user list held in a query cache and patched optimistically by three
    mutations;
  - a filter bar over that list;
  - a dialog that toggles a user's roles;
  - the helper that turns `ROLE_SUPER_ADMIN` into `Super Admin`.

The model is written as pure functions over immutable values:

- **Browser storage** is a map from key to item. An item is plain text or a
  serialised user value.
- **The provider's `user` state** is `Null`, `Undefined`, an account, or an
  opaque JSON value such as the string `"No data"`.
- **Navigation** is a log of the paths navigated to.
- **The query cache** is a map from query key to the cached list.
- **Server replies, the network and the CSRF endpoint** are inputs: an
  optional reply, or a `fetch` outcome. Each operation returns the requests
  it issued together with the new state.
- **Forms** apply their rules in the order the form library uses (required,
  then length, then pattern, then custom validation). A submission either
  stops at the field errors or hands a payload to the provider. The
  browser's own check of `type="email"` fields, which runs before the form
  library, is not modelled (see "Left out").

One file holds each module:

| file | module | what it holds |
|---|---|---|
| `wrappers.dfy` | `Wrappers` | the optional value |
| `text.dfy` | `Text` | JavaScript string helpers |
| `lists.dfy` | `Lists` | `filter`, the inline toggle, subsequences |
| `http.dfy` | `Http` | methods, responses, fetch outcomes |
| `identity.dfy` | `Identity` | user value, storage, session effects |
| `role_name.dfy` | `RoleName` | the role-name helper |
| `roles_page.dfy` | `RolesPage` | the roles page |
| `users_cache.dfy` | `UsersCache` | the users hook |
| `dashboard.dfy` | `Dashboard` | the user list filter |
| `user_filters.dfy` | `UserFilters` | the filter bar |
| `manage_roles.dfy` | `ManageRoles` | the role dialog |
| `token_renewal.dfy` | `TokenRenewal` | the renewal hook |
| `api_client.dfy` | `ApiClient` | the authenticated request helper |
| `session.dfy` | `Session` | the auth provider |
| `route_guard.dfy` | `RouteGuard` | the route guards |
| `role_selection.dfy` | `RoleSelection` | the role selection page |
| `validators.dfy` | `Validators` | the input patterns as predicates |
| `auth_forms.dfy` | `AuthForms` | the auth forms |

## Model

| member | source | states |
|---|---|---|
| Text.ToLower | src/helper/index.ts:4 | lower-casing keeps the length and lower-cases each character on its own; other characters are unchanged |
| Text.ToLowerIdempotent | src/pages/admin/dashboard/Dashboard.tsx:32-34 | lower-casing a lower-cased string changes nothing, which is why the search may lower-case both sides |
| Text.JoinSplit | src/helper/index.ts:5-7 | splitting on a character and joining with the same character gives the input back |
| Text.SplitJoin | src/helper/index.ts:5-7 | joining pieces that do not contain the separator, then splitting, gives the pieces back |
| Text.SplitCount | src/helper/index.ts:5 | a split gives one more piece than there are separators |
| Text.NatToStringRoundTrip | src/pages/admin/Roles/Roles.tsx:112 | the decimal text of a number reads back as that number |
| Text.LeadingZeros | src/pages/admin/Roles/Roles.tsx:112 | zero padding in front of digits does not change their value |
| Text.PadStart | src/pages/admin/Roles/Roles.tsx:112 | padding reaches the width, or keeps a longer input; the input ends the result and only filler precedes it |
| Text.ContainsAt | src/pages/admin/dashboard/Dashboard.tsx:32-34 | a string occurring at some index is contained |
| Lists.Filter | src/pages/admin/Roles/Roles.tsx:103-108 | `filter` keeps exactly the members that pass, each as many times as it occurs, and never lengthens the list |
| Lists.FilterIsSubseq | src/pages/admin/Roles/Roles.tsx:142 | filtering keeps the survivors in their original order |
| Lists.FilterStricter | src/pages/admin/dashboard/Dashboard.tsx:29-44 | filtering by a condition and then by a stricter one is filtering by the stricter one |
| Lists.ToggleMember | src/pages/admin/Roles/Roles.tsx:150-152 | a present element is removed wherever it occurs, every other element keeps its count and the order is kept; an absent element is appended |
| Lists.FilterOutLength | src/pages/admin/dashboard/components/ManageRolesDialog.tsx:35 | removing an element shortens the list by its number of occurrences |
| Lists.ToggleAbsentTwice | src/pages/admin/Roles/Roles.tsx:150-152 | toggling an absent element twice restores the list |
| Lists.TogglePresentTwiceMoves | src/pages/admin/Roles/Roles.tsx:150-152 | toggling a present element twice moves it to the end, so the list is not always restored |
| Lists.TogglePresentTwiceMerges | src/pages/admin/Roles/Roles.tsx:150-152 | toggling a duplicated element twice leaves one copy |
| RoleName.PipelineIsWordCase | src/helper/index.ts:5-7 | split, capitalise and join equals a one-pass reference: `_` becomes a space and the first character of each piece is upper-cased |
| RoleName.WordCaseAtUnderscore | src/helper/index.ts:5-7 | an `_` starts a new capitalised word whatever precedes it |
| RoleName.WordCasePointwise | src/helper/index.ts:5-7 | the reference pass, character by character |
| RoleName.FormatRoleName | src/helper/index.ts:1-8 | the helper equals the one-pass reference applied to the lower-cased input less one leading `ROLE_` |
| RoleName.FormatRoleNamePointwise | src/helper/index.ts:1-8 | output length is the input length less one leading `ROLE_`; each `_` becomes a space; first letters of pieces are upper-cased, all others lower-cased; no `_` remains |
| RoleName.FormatRoleNameLength | src/helper/index.ts:3 | the output is five characters shorter exactly when the input starts with `ROLE_` |
| RoleName.FormatRoleNameWords | src/helper/index.ts:5-7 | for an input without spaces, the output's words are the capitalised `_`-pieces, one word per piece |
| RoleName.FormatAdminExample | src/helper/index.ts:1-8 | `ROLE_ADMIN` becomes `Admin` |
| RoleName.FormatSuperAdminExample | src/helper/index.ts:1-8 | `ROLE_SUPER_ADMIN` becomes `Super Admin` |
| RoleName.FormatEmptyPieceExample | src/helper/index.ts:5-6 | an empty piece becomes a leading space: `ROLE__X` becomes ` X` |
| RoleName.FormatDoublePrefixExample | src/helper/index.ts:3 | only one `ROLE_` prefix is removed: `ROLE_ROLE_X` becomes `Role X` |
| RolesPage.InitialRolesShape | src/pages/admin/Roles/Roles.tsx:41-77 | the seed list holds `ROLE001` to `ROLE005` in order, and only the last two have no users |
| RolesPage.Ids | src/pages/admin/Roles/Roles.tsx:132-142 | the ids the page compares, one per role, in list order |
| RolesPage.FilteredRoles | src/pages/admin/Roles/Roles.tsx:103-108 | keeps a role iff its lower-cased name or description contains the lower-cased term, with its multiplicity and in order; an empty term keeps every role |
| RolesPage.EmptyTermMatchesAll | src/pages/admin/Roles/Roles.tsx:105 | the empty-term shortcut agrees with the containment test |
| RolesPage.PadStartIsZeros | src/pages/admin/Roles/Roles.tsx:112 | padding to three with `0` is zeros followed by the digits |
| RolesPage.RoleIdFor | src/pages/admin/Roles/Roles.tsx:112 | a generated id starts with `ROLE`, has at least seven characters and parses back to its number |
| RolesPage.NextRoleId | src/pages/admin/Roles/Roles.tsx:112 | the page's new id encodes one more than the number of roles |
| RolesPage.RoleIdInjective | src/pages/admin/Roles/Roles.tsx:112 | different numbers give different ids |
| RolesPage.AddRole | src/pages/admin/Roles/Roles.tsx:110-124 | the form's role is appended under the generated id, the old roles are kept, and the form is reset to blank |
| RolesPage.AddRoleIdEncodesLength | src/pages/admin/Roles/Roles.tsx:112 | the new id carries the new length of the list |
| RolesPage.FiveIsRole005 | src/pages/admin/Roles/Roles.tsx:112 | the fifth id is `ROLE005` |
| RolesPage.DuplicateIdAfterDelete | src/pages/admin/Roles/Roles.tsx:112 | deleting `ROLE004` from the seed list and then adding a role gives two roles with id `ROLE005` |
| RolesPage.DeleteRole004 | src/pages/admin/Roles/Roles.tsx:141-144 | deleting `ROLE004` from the seed list removes exactly the fourth role |
| RolesPage.DeleteOne | src/pages/admin/Roles/Roles.tsx:142 | deleting an id held by one role removes only that role |
| RolesPage.MaxRoleNumber | src/pages/admin/Roles/Roles.tsx:112 | bounds every number carried by a `ROLEnnn` id in the list |
| RolesPage.FreshRoleId | src/pages/admin/Roles/Roles.tsx:112 | the corrected id is held by no role in the list |
| RolesPage.AddRoleFresh | src/pages/admin/Roles/Roles.tsx:110-124 | the corrected add appends the form under an id no role holds |
| RolesPage.FreshAgreesWithoutDeletes | src/pages/admin/Roles/Roles.tsx:112 | when the ids are `ROLE001`, `ROLE002`, … in order, the corrected id equals the page's id |
| RolesPage.SaveRole | src/pages/admin/Roles/Roles.tsx:131-134 | roles with the edited id are replaced and all others kept; length and ids are unchanged |
| RolesPage.SaveRoleIdempotent | src/pages/admin/Roles/Roles.tsx:132 | saving twice is saving once; saving under an unknown id changes nothing |
| RolesPage.DeleteRole | src/pages/admin/Roles/Roles.tsx:141-144 | exactly the roles with other ids remain, each as often as before and in order; the id is gone |
| RolesPage.DeleteEnabled | src/pages/admin/Roles/Roles.tsx:242 | delete is offered exactly when no user holds the role |
| RolesPage.InitialDeletable | src/pages/admin/Roles/Roles.tsx:242 | of the seed roles, exactly `ROLE004` and `ROLE005` (no users) may be deleted |
| RolesPage.TogglePermission | src/pages/admin/Roles/Roles.tsx:146-162 | only the targeted form's permissions change; a present permission is removed everywhere while every other keeps its count and order; an absent one is appended |
| RolesPage.TogglePermissionTwice | src/pages/admin/Roles/Roles.tsx:146-162 | ticking and unticking a permission restores both forms |
| RolesPage.SubmitConditions | src/pages/admin/Roles/Roles.tsx:312 | Add and Save share one enabling condition, Save is disabled with no role in edit, and an added role has a name, a description and a permission |
| UsersCache.SetQueryData | src/hooks/admin-userslist.ts:95-97 | writing a value replaces the entry; writing an absent snapshot changes nothing |
| UsersCache.SetUserRoles | src/hooks/admin-userslist.ts:75-91 | the user with the edited id gets the edited roles, all else is kept; an absent list becomes empty |
| UsersCache.ToggleEnabled | src/hooks/admin-userslist.ts:161-183 | `enabled` flips on the users with the id and nothing else changes; an absent list becomes empty |
| UsersCache.ToggleEnabledTwice | src/hooks/admin-userslist.ts:161-183 | toggling the same user twice restores the list |
| UsersCache.SetUserRolesIdempotent | src/hooks/admin-userslist.ts:75-91 | installing the same roles twice is installing them once |
| UsersCache.RolesPayload | src/hooks/admin-userslist.ts:61-68 | the body carries the edited user's id and the ids of the chosen roles, in order |
| UsersCache.RequestFor | src/hooks/admin-userslist.ts:6-9 | add-roles POSTs and remove-roles DELETEs the payload to their endpoints; toggle PUTs to the user's enable path with no body |
| UsersCache.OnMutate | src/hooks/admin-userslist.ts:70-94 | the snapshot is the cached list; only the list's entry changes |
| UsersCache.OnError | src/hooks/admin-userslist.ts:95-97 | an absent snapshot writes nothing; the add-roles rollback never touches the list's entry; the other two put the snapshot back under the list's key |
| UsersCache.OnErrorFixed | src/hooks/admin-userslist.ts:146-148 | the rollback writes a present snapshot back under the list's key and nothing else |
| UsersCache.RunMutation | src/hooks/admin-userslist.ts:70-97 | no entry is dropped; success keeps the patch; a failed remove-roles or toggle restores a cached list; a failed add-roles keeps the patched list and plants the old one under `users` |
| UsersCache.RunMutationFixed | src/hooks/admin-userslist.ts:146-148 | success keeps the patch; any failure restores a cached list |
| UsersCache.RollbackRestores | src/hooks/admin-userslist.ts:146-148 | a failed remove-roles or toggle restores a cached list exactly |
| UsersCache.AddRolesRollbackMisses | src/hooks/admin-userslist.ts:95-97 | a failed add-roles leaves the optimistic list in place and plants the snapshot under `users` |
| UsersCache.AddRolesRollbackExample | src/hooks/admin-userslist.ts:70-97 | a concrete failed add-roles whose list still shows the role |
| UsersCache.RollbackFixedRestores | src/hooks/admin-userslist.ts:95-97 | with the rollback under the list's key every failed mutation restores the cache |
| UsersCache.SuccessKeepsPatch | src/hooks/admin-userslist.ts:70-94 | a successful mutation keeps the optimistic patch, under either rollback |
| UsersCache.PatchIgnoresRoleIds | src/hooks/admin-userslist.ts:75-91 | the patch ignores the chosen role ids and is the same for adding and removing |
| UsersCache.UsersOf | src/hooks/admin-userslist.ts:192 | the cached users, or an empty list |
| Dashboard.FilterUsers | src/pages/admin/dashboard/Dashboard.tsx:29-44 | keeps a user iff search, status and role all match, with its multiplicity and in order; with no criteria keeps everyone |
| Dashboard.NarrowingShrinks | src/pages/admin/dashboard/Dashboard.tsx:43 | setting a further filter can only shrink the list, keeping the order |
| Dashboard.SearchIgnoresCase | src/pages/admin/dashboard/Dashboard.tsx:32-34 | a term and its lower-case form select the same users |
| Dashboard.SearchFindsOwnFields | src/pages/admin/dashboard/Dashboard.tsx:30-34 | a user is found by its own name, email and id |
| Dashboard.StatusFiltersPartition | src/pages/admin/dashboard/Dashboard.tsx:36-38 | `active` and any other status value select complementary users |
| UserFilters.ClearFilters | src/pages/admin/dashboard/components/UserFilters.tsx:32-35 | both selects return to null; the search term stays |
| UserFilters.Displayed | src/pages/admin/dashboard/components/UserFilters.tsx:67 | a select shows its filter when that is truthy, otherwise `any` |
| UserFilters.OnValueChange | src/pages/admin/dashboard/components/UserFilters.tsx:68 | choosing `any` clears the filter; any other item is stored as chosen |
| UserFilters.ActiveCount | src/pages/admin/dashboard/components/UserFilters.tsx:56 | the badge number is at most two; it is zero or two exactly when neither or both filters are truthy |
| UserFilters.BadgeShownIffCount | src/pages/admin/dashboard/components/UserFilters.tsx:54-56 | the badge is shown exactly when its number is positive |
| UserFilters.ClearWidens | src/pages/admin/dashboard/components/UserFilters.tsx:32-35 | after clearing, the badge is gone and the list, filtered by the search alone, contains the previous list in order |
| UserFilters.ReselectIsStable | src/pages/admin/dashboard/components/UserFilters.tsx:83-84 | choosing the item a select shows changes nothing |
| UserFilters.ReselectNull | src/pages/admin/dashboard/components/UserFilters.tsx:67-68 | re-selecting from the initial null filter keeps it null |
| ManageRoles.ToggleRole | src/pages/admin/dashboard/components/ManageRolesDialog.tsx:33-39 | only the roles change; a held role is removed in every occurrence, the rest keep their counts and order; a missing role is appended |
| ManageRoles.ToggleRoleAbsentTwice | src/pages/admin/dashboard/components/ManageRolesDialog.tsx:33-39 | ticking and unticking a role restores the user |
| ManageRoles.Checkboxes | src/pages/admin/dashboard/components/ManageRolesDialog.tsx:31 | without a user nothing renders; otherwise each box is ticked iff the user holds its role |
| ManageRoles.ToggleFlipsOneBox | src/pages/admin/dashboard/components/ManageRolesDialog.tsx:54 | toggling a role flips its box and no other |
| Identity.RolesOf | src/components/ProtectedRoute/index.tsx:45 | only an account has roles |
| Identity.IsAuthenticated | src/context/AuthProvider.tsx:270 | `null` and `undefined` are signed out, an account is signed in, an opaque JSON string such as `"No data"` is signed in iff it is non-empty, and a signed-out value carries no roles |
| Identity.TextItem | src/service/api-client.ts:38 | a missing item reads as the empty string; a text item reads as its text |
| Identity.ParseUser | src/context/AuthProvider.tsx:80 | a serialised value other than `undefined` parses back to itself; anything else fails |
| Identity.RemoveKeys | src/context/AuthProvider.tsx:84-86 | the named keys are gone and every other item is kept |
| TokenRenewal.Attempt | src/hooks/authTokens.ts:12-41 | a refresh request with the CSRF token goes out iff a non-empty token came back; success iff that request is answered ok; each failure carries its message |
| TokenRenewal.OnError | src/hooks/authTokens.ts:44-54 | the stored user is removed; the call to the missing `setUser` then throws, so `user` and navigation are left alone |
| TokenRenewal.OnErrorIntended | src/hooks/authTokens.ts:44-54 | the handler as intended, with a working `setUser`: it removes the stored user, clears `user` and navigates to sign in when it can |
| TokenRenewal.Renew | src/hooks/authTokens.ts:11-55 | success leaves the session alone; failure applies the error effects; request and outcome are the attempt's |
| TokenRenewal.RenewIntended | src/hooks/authTokens.ts:11-55 | the same renewal with the handler as intended, with a working `setUser` |
| TokenRenewal.RenewalEffects | src/hooks/authTokens.ts:36-54 | a renewal never changes `user` or navigates; it leaves storage alone or only drops the stored user |
| TokenRenewal.NoCsrfNoRequest | src/hooks/authTokens.ts:14-17 | with a missing or empty CSRF token no request goes out, the stored user is dropped and `user` is kept |
| TokenRenewal.FailedRenewalKeepsUser | src/hooks/authTokens.ts:44-53 | a signed-in visitor whose renewal fails stays signed in, with no stored user and no navigation |
| TokenRenewal.RenewIntendedSignsOut | src/hooks/authTokens.ts:44-54 | the intended handler signs the visitor out and navigates when it can; it agrees with the running one on request, outcome and storage |
| ApiClient.BuildRequest | src/service/api-client.ts:15-35 | method defaults to GET; bearer token; content type sent iff non-empty; body sent iff truthy, as JSON iff the type is JSON |
| ApiClient.Call | src/service/api-client.ts:37-73 | one or two requests; a renewal iff the first answer is 401 or 403; the retry repeats the first request; an ok first answer resolves with its body and no effect; a call that resolves after a retry resolves with the retry's body; `user` never changes |
| ApiClient.ResolvesIff | src/service/api-client.ts:37-66 | resolves iff the first answer is ok, or it is 401/403 and the renewal and retry succeed |
| ApiClient.RejectionShape | src/service/api-client.ts:37-72 | after 401/403 the rejection has the fixed message and the renewal effects come first; after another answer the message carries the status; a network failure of the first request rethrows its message with no renewal; every rejection navigates once when it can |
| ApiClient.RenewalFailureNavigatesOnce | src/service/api-client.ts:52-57 | a failed renewal navigates to sign in once, drops the stored user and keeps `user` |
| ApiClient.ServerErrorNavigates | src/service/api-client.ts:61-72 | a 500 answer rejects with the status message and still navigates to sign in |
| ApiClient.CallFixed | src/service/api-client.ts:67-72 | same requests and result as the call; a failure other than 401/403 leaves the session as it was |
| ApiClient.FixedNavigatesOnlyOnAuth | src/service/api-client.ts:41-59 | under the fixed call, navigation means the credentials were refused |
| Session.Initial | src/context/AuthProvider.tsx:67-68 | the provider starts loading, with no user and no navigation |
| Session.Rehydrate | src/context/AuthProvider.tsx:72-92 | restores the stored user when all three items are present; drops all three when it does not parse; loading always ends |
| Session.RehydrateAuthenticates | src/context/AuthProvider.tsx:72-92 | a reload authenticates iff the three items are stored and the user parses to a truthy value |
| Session.RenewAccessToken | src/context/AuthProvider.tsx:226-260 | an empty token fails with no request; success stores both tokens and the user and goes home; failure goes to sign in |
| Session.RenewedSessionSurvivesReload | src/context/AuthProvider.tsx:246-252 | after a renewal with non-empty tokens a reload restores the same user |
| Session.SignUp | src/context/AuthProvider.tsx:94-117 | one register request; success stores the token and user, sets the user and goes home; failure changes nothing |
| Session.SignUpDoesNotSurviveReload | src/context/AuthProvider.tsx:107-113 | sign-up stores no access token, so a reload finds no session |
| Session.StoredSignInUser | src/context/AuthProvider.tsx:131 | the stored user is the reply's user when truthy, otherwise the truthy string `No data` |
| Session.SignIn | src/context/AuthProvider.tsx:119-142 | success stores the temporary token and user, sets the top-level user, and renews with the temporary token; failure changes nothing |
| Session.SignInOutcomes | src/context/AuthProvider.tsx:129-138 | one or two requests, the second iff the temporary token is non-empty; a failed renewal ends at sign in, a good one at home with the renewed user |
| Session.SignOut | src/context/AuthProvider.tsx:144-151 | removes `token` and `user`, clears the user, goes to sign in |
| Session.SignOutLeavesTokens | src/context/AuthProvider.tsx:145-146 | the access and refresh tokens survive a sign-out |
| Session.SignOutClearing | src/context/AuthProvider.tsx:144-151 | the corrected sign-out removes every credential the provider writes and keeps other items |
| Session.SignOutClearingForgets | src/context/AuthProvider.tsx:144-151 | after it the access token reads empty and a reload finds no session |
| Session.RequestPasswordReset | src/context/AuthProvider.tsx:153-173 | one OTP request; success goes to code entry with the email in the query string |
| Session.VerifyCode | src/context/AuthProvider.tsx:175-199 | one verification request and no state change |
| Session.NewPassword | src/context/AuthProvider.tsx:201-224 | sends the password and the stored reset token (empty if none); success goes to sign in |
| Session.GetToken | src/context/AuthProvider.tsx:264 | returns the stored `token` item when present |
| Session.LoadingOnlyEndsOnRehydrate | src/context/AuthProvider.tsx:68-92 | from any state, an operation leaves loading on exactly when it was on and the operation is not the reload check |
| Session.LoadingUntilReload | src/context/AuthProvider.tsx:68-92 | from the initial state, any run of operations without a reload check still reports loading |
| Session.PasswordResetLeavesSession | src/context/AuthProvider.tsx:153-224 | the password-reset flow leaves storage, `user` and loading alone and navigates only to code entry and sign in |
| Session.NewPasswordResetToken | src/context/AuthProvider.tsx:203-212 | the new password goes out with the stored reset token, or an empty one |
| RouteGuard.AuthGuard | src/components/ProtectedRoute/index.tsx:10-30 | waits while loading; renders for a signed-out visitor; sends a signed-in one to the admin dashboard iff admin, else home, with `from` |
| RouteGuard.ProtectedRoute | src/components/ProtectedRoute/index.tsx:32-57 | waits while loading; sends a signed-out visitor to sign in; renders iff no roles are required or one is held, else sends home |
| RouteGuard.HoldsOneOfSingle | src/components/ProtectedRoute/index.tsx:45-48 | holding one of a single allowed role is holding that role |
| RouteGuard.AdminRoute | src/components/ProtectedRoute/index.tsx:62-66 | once loaded, renders exactly for signed-in admins; others go home or to sign in |
| RouteGuard.ManagerRoute | src/components/ProtectedRoute/index.tsx:71-75 | once loaded, renders exactly for signed-in managers; others go home or to sign in |
| RouteGuard.UserRoute | src/components/ProtectedRoute/index.tsx:80-84 | once loaded, renders exactly for signed-in users; others go to sign in |
| RouteGuard.GuardsPartition | src/components/ProtectedRoute/index.tsx:10-57 | exactly one of the auth pages and the user pages renders |
| RouteGuard.AuthGuardRedirectAdmitted | src/components/ProtectedRoute/index.tsx:21-25 | the auth guard's redirect lands on a page that admits the user |
| RouteGuard.DecisionsAreFixedPaths | src/components/ProtectedRoute/index.tsx:23-51 | every redirect goes to one of the three fixed paths |
| RoleSelection.RouteOf | src/pages/auth/RoleSelection.tsx:23-66 | a route exists exactly for the six table keys |
| RoleSelection.RoutesDistinct | src/pages/auth/RoleSelection.tsx:23-66 | different roles have different routes |
| RoleSelection.RoleNames | src/pages/auth/RoleSelection.tsx:80 | the names of the user's roles, in order |
| RoleSelection.Show | src/pages/auth/RoleSelection.tsx:77-90 | null goes to sign in; a non-account crashes; an account is offered `ROLE_USER` then its table roles in order, each as often as the user holds it, with a redirect iff there are none |
| RoleSelection.OfferedHaveRoutes | src/pages/auth/RoleSelection.tsx:90-102 | every offered role has a route |
| RoleSelection.RoleUserOfferedTwice | src/pages/auth/RoleSelection.tsx:90 | a user holding `ROLE_USER` is offered it twice |
| RoleSelection.Continue | src/pages/auth/RoleSelection.tsx:96-106 | nothing without a selection, otherwise the selected role's route |
| RoleSelection.ContinueHome | src/pages/auth/RoleSelection.tsx:90-105 | choosing `ROLE_USER` leads home |
| RoleSelection.ContinueAdmin | src/pages/auth/RoleSelection.tsx:80-105 | an admin is offered the admin role, which leads to the admin dashboard |
| Validators.MatchesPasswordPattern | src/pages/auth/NewPassword.tsx:72 | one pass decides the password pattern |
| Validators.IndexOf | src/pages/auth/SignUp.tsx:94 | the first position of a character, or the length if it does not occur |
| Validators.LastIndexOf | src/pages/auth/SignUp.tsx:94 | the last position of a character, or -1 if it does not occur |
| Validators.SignUpEmailDirectIff | src/pages/auth/SignUp.tsx:94 | the sign-up email pattern matches iff it matches at the first `@` and the last dot |
| Validators.SignInEmailIff | src/pages/auth/SignIn.tsx:63 | the sign-in pattern: no white space, one `@` with text before it, then a dot with text on both sides |
| Validators.SignUpEmailIsSignInEmail | src/pages/auth/SignUp.tsx:94 | every sign-up address passes the sign-in pattern |
| Validators.SignInEmailIsNotSignUpEmail | src/pages/auth/SignIn.tsx:63 | `a@b.c` passes sign-in but not sign-up |
| AuthForms.Errors | src/pages/auth/SignUp.tsx:68 | no errors iff every field passes; each error is a failing field's message |
| AuthForms.SignUpEmailError | src/pages/auth/SignUp.tsx:91-96 | the email passes iff it is non-empty and matches the pattern |
| AuthForms.SignUpPasswordError | src/pages/auth/SignUp.tsx:112-118 | the password passes iff it has at least eight characters |
| AuthForms.ConfirmError | src/pages/auth/SignUp.tsx:140-144 | the confirmation passes iff it is non-empty and equals the password |
| AuthForms.SubmitSignUp | src/pages/auth/SignUp.tsx:51-56 | submits iff every field passes, sending name, email and password |
| AuthForms.PlainEmailError | src/pages/auth/SignIn.tsx:60-65 | the email passes iff it is non-empty and matches the loose pattern |
| AuthForms.SubmitSignIn | src/pages/auth/SignIn.tsx:37-39 | submits iff the email matches and a password is given, forwarded unchanged |
| AuthForms.SubmitForgetPassword | src/pages/auth/ForgetPassword.tsx:32-34 | submits iff the email matches, sending only the email |
| AuthForms.SignUpAddressWorksEverywhere | src/pages/auth/ForgetPassword.tsx:51-56 | an address accepted at sign-up is accepted by sign-in and forgotten password |
| AuthForms.NewPasswordError | src/pages/auth/NewPassword.tsx:64-76 | the password passes iff it has at least eight characters and matches the pattern |
| AuthForms.SubmitNewPassword | src/pages/auth/NewPassword.tsx:37-43 | submits iff the password passes and the confirmation equals it; the handler then sends the password |
| AuthForms.NewPasswordPolicy | src/pages/auth/NewPassword.tsx:64-76 | the policy in plain terms: eight or more allowed characters with a lower-case letter, an upper-case letter, a digit and a special character |
| AuthForms.StrongPasswordExample | src/pages/auth/NewPassword.tsx:72 | `Passw0rd!` is accepted |
| AuthForms.DashRejectsPassword | src/pages/auth/NewPassword.tsx:72 | a character outside the set rejects the password |
| AuthForms.SevenCharactersTooFew | src/pages/auth/NewPassword.tsx:66-72 | seven characters fail the length rule even when the pattern matches |
| AuthForms.MismatchToastUnreachable | src/pages/auth/NewPassword.tsx:38-41 | the handler's mismatch toast can never fire |
| AuthForms.SubmitCode | src/pages/auth/VerifyCode.tsx:35-54 | the code is required; fewer than six characters gives the error; otherwise dispatches by code type with the code and email |
| AuthForms.DispatchedCodeHasSix | src/pages/auth/VerifyCode.tsx:80 | with input capped at six, a dispatched code has exactly six characters |

## Left out

- Case mapping covers ASCII letters only; JavaScript's full Unicode case
  mapping is not modelled. Lengths are in characters, not UTF-16 code units.
- `JSON.stringify` and `JSON.parse` are abstract:
  - a stored user is either text or a serialised user value;
  - a text item under `user` counts as unparsable;
  - request bodies are lists of named fields.
- `response.json()` failing on a malformed body is not modelled. A call
  whose answer is ok resolves with the body text.
- The `API_BASE_URL` prefix is left off request paths; paths are relative to
  it.
- The CSRF token fetch (`src/hooks/csrf-token.ts`) is not part of this
  model. Its result is an input: a token, or no token. The hook catches
  every error and resolves to null, so a rejection is not an input.
- Of the query library only `getQueryData` and `setQueryData` are modelled:
  - `cancelQueries` and `invalidateQueries` are left out;
  - the fetching of the user list is left out;
  - loading and error screens are left out.
- Toasts, `console` output, spinners and the dialogs' open and closed flags
  have no effect in the model.
- Concurrency is not modelled: each operation runs to completion before the
  next.
- A role name such as `constructor` passes JavaScript's `in` test on the
  role table through the object prototype. `RoleSelection.Show` treats only
  the six table keys as present.
- AuthForms.SubmitSignUp: the email field is an `<input type="email">` in
  a form without `noValidate`. The browser's valid-email check therefore
  runs first and blocks some addresses the pattern accepts, such as
  `a@b..cd` and `a@-b.cd`. It also trims surrounding white space. The
  contract's "submits iff" holds only for addresses the browser lets
  through unchanged, because the HTML email grammar is not modelled.
- AuthForms.SubmitSignIn: the same browser check of the `type="email"`
  field is not modelled. The contract covers what reaches the form library.
- AuthForms.SubmitForgetPassword: the same browser check of the
  `type="email"` field is not modelled. The contract covers what reaches
  the form library.
- UserFilters.ReselectIsStable: it assumes the chosen item is non-empty. The
  select items never are, and the empty status value is not reachable
  through them.
- `RoleSelection.Show` returns what a render decides. It does not model the
  render loop that a navigation during render causes.
- `Session.GetToken` reads an item under `token` only when it is text. The
  provider never writes anything else there.
- The verification-code page reads `verifyForgotPasswordCode` and
  `verifySignInCode` from the auth context, which provides neither (it
  offers only `verifyCode`). As given, both are `undefined`, so reading
  their `isLoading` while rendering, or calling them on submit, throws.
  The model does not follow that consequence, because the page and the
  provider evidently come from different revisions. `AuthForms.SubmitCode`
  models only the dispatch that the page's submit handler would hand on.
- The renewal hook reads a `setUser` the context does not provide. The
  model follows the consequence: the error handler stops with a
  `TypeError` once the stored user is removed. The query library's report
  of that error to the caller is the same rejection the call already
  handles.
- The older `src/hooks/authTokens.tsx` is not part of this model.
- The layout, table and edit-dialog components are not part of this model.
- The email in the verify-code URL is not URL-encoded, and the model keeps
  it that way.

## Findings

| source | as written | input that shows it | evidently intended | confidence | as-written member | corrected member |
|---|---|---|---|---|---|---|
| src/pages/admin/Roles/Roles.tsx:112 | the new id is `ROLE` plus the list length plus one | delete `ROLE004` from the seed roles, then add a role: two roles are `ROLE005` | an id no role holds | not executed | RolesPage.DuplicateIdAfterDelete | RolesPage.AddRoleFresh |
| src/hooks/admin-userslist.ts:95-97 | the add-roles rollback writes the snapshot under `users` | a cached user gains a role, and the request fails: the list still shows the role | restore under `all-users-list`, as the other two mutations do | not executed | UsersCache.AddRolesRollbackMisses | UsersCache.RollbackFixedRestores |
| src/context/AuthProvider.tsx:144-151 | sign-out removes only `token` and `user` | sign in, then sign out: `access-token` and `refresh-token` remain, and later requests still send the old access token | remove every stored credential | not executed | Session.SignOutLeavesTokens | Session.SignOutClearingForgets |
| src/service/api-client.ts:67-72 | the outer catch navigates to sign in on every failure | a 500 answer to a signed-in user's request sends them to sign in | navigate only when authentication failed | not executed | ApiClient.ServerErrorNavigates | ApiClient.FixedNavigatesOnlyOnAuth |
| src/hooks/authTokens.ts:44-53 | the renewal's error handler calls `setUser`, which the auth context does not provide | a signed-in visitor whose renewal fails: the handler throws after removing the stored user, so `user` stays set and the handler's navigation never runs | clear `user` and navigate to sign in | not executed | TokenRenewal.FailedRenewalKeepsUser | TokenRenewal.RenewIntendedSignsOut |
