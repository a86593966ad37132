# Animatic Vision client, modelled in Dafny

Animatic Vision turns a written story into a short animated clip. This project
models the browser front end's core logic in Dafny and proves properties of it:

- the typed endpoint declarations the front end uses to call the backend:
  admin user management, user and admin sessions, and projects;
- the two session slices those calls update;
- the field rules of the sign-up, sign-in, user and project forms;
- what each screen sends, shows and changes in response to the user.

Rendering is reduced to the decisions it encodes: which region shows, which
button is enabled, and which text a notification carries.

Modules, one per source area:

- `Js`: JavaScript values as the code observes them: `undefined`, `null`,
  JSON data, truthiness, `??`, `||`, `?.`, and a property read that throws on
  `null`.
- `Text`: decimal rendering of numbers in URLs and keys, and `split(",")[0]`.
- `Http`: a request as an endpoint declaration describes it, and cache tags.
- `Entities`: the records exchanged with the backend.
- `AdminUsersApi`, `AdminAuthApi`, `AuthApi`, `ProjectApi`: the endpoint
  declarations.
- `AdminAuthSlice`, `ProjectSlice`: the two slices of client state.
- `Messages`: the two ways the screens turn an outcome into notification text.
- `Validation`: the email and password patterns, and the `required` and
  `minLength` rules.
- `AuthForms`, `UserDialogs`, `UserList`, `ProjectView`: the screens.

The caching library's rule for matching invalidated tags to cached entries is
not part of this repository. `Http.Hits` states the rule the model assumes, and
every lemma about staleness holds only under that assumption:

- an invalidated type-level tag stales every entry of that type;
- an invalidated `{type, id}` tag stales only the entry with the same tag.

Logging out does not clear the session:

- `adminAuthSlice` defines an `adminLogout` reducer
  (src/redux/features/admin/adminAuthSlice.ts:19), but nothing in these files
  dispatches it;
- the `logoutAdmin` and `logoutUser` endpoints (adminAuthApi.ts:40,
  authApi.ts:37) declare no side effect on the client state.

The model follows the code: a logout leaves the admin session as it was
(`AdminAuthApi.OnlyLoginSuccessChangesSession`).

## Model

| member | source | states |
|---|---|---|
| Js.Coalesce | src/components/Auth/Register/Register.tsx:34 | `a ?? b` is `a` unless `a` is null or undefined, then `b`; with a non-nullish fallback the result is never nullish |
| Js.Or | src/components/Admin/Users/CreateUserDialog.tsx:61 | `a \|\| b` is `a` when truthy, else `b`; a truthy fallback makes the result truthy |
| Js.OptGet | src/components/Project/ProjectDetail.tsx:225 | `v?.key` is undefined on null or undefined, the field on an object, undefined for a missing field |
| Js.Get | src/redux/features/admin/adminAuthApi.ts:36 | a plain property read throws a TypeError exactly when the object is null or undefined |
| Js.CoalesceOrDiffer | src/components/Auth/Register/Register.tsx:41 | `??` and `\|\|` give different results exactly for a falsy, non-nullish value that is not the fallback (`""`, `0`, `false`) |
| Entities.RoleName | src/redux/features/admin/adminUsersApi.ts:7 | a role's wire form is "admin" exactly for the admin role, never empty |
| Entities.Flip | src/components/Admin/Users/UserManagement.tsx:63 | the toggle `role === "admin" ? "user" : "admin"` always yields the other role |
| Entities.FlipTwice | src/components/Admin/Users/UserTable.tsx:96 | toggling twice returns the starting role |
| Http.UrlOnly | src/redux/features/admin/adminUsersApi.ts:64 | a query given as a bare URL is a GET with that URL, no body and no credentials field |
| Text.NatToString | src/redux/features/admin/adminUsersApi.ts:55 | `n.toString()` for a natural is a non-empty string of decimal digits with no leading zero |
| Text.IntToString | src/redux/features/admin/adminUsersApi.ts:64 | `${id}` starts with a minus sign exactly for a negative id, and is all digits otherwise |
| Text.ParseNatToString | src/redux/features/admin/adminUsersApi.ts:55 | reading the digits of `n.toString()` back gives `n` |
| Text.IntToStringRoundTrip | src/redux/features/admin/adminUsersApi.ts:64 | reading back a rendered integer gives the integer |
| Text.IntToStringInjective | src/redux/features/admin/adminUsersApi.ts:82 | different ids render differently, so a path names one user |
| Text.NatToStringInjective | src/components/Project/ProjectDetail.tsx:33 | different indexes render differently |
| Text.BeforeFirst | src/components/Project/ProjectDetail.tsx:236 | `s.split(sep)[0]` is a prefix of `s` holding no `sep`, and is all of `s` or ends right before the first `sep` |
| Text.SplitAtLastSeparator | src/components/Project/ProjectDetail.tsx:227 | `a + c + b` strings whose suffixes hold no `c` are equal only if prefixes and suffixes are |
| AdminUsersApi.SearchParams | src/redux/features/admin/adminUsersApi.ts:52-56 | at most four parameters, only the keys q, role, page, limit, always in that order |
| AdminUsersApi.ListParamsRoundTrip | src/redux/features/admin/adminUsersApi.ts:51-58 | every truthy list argument reaches the server under its own key with its own value; every falsy one (empty text, page or limit 0) is absent |
| AdminUsersApi.FirstPageUrl | src/redux/features/admin/adminUsersApi.ts:57 | the first page of ten, unfiltered, is requested as `/admin/users?page=1&limit=10` |
| AdminUsersApi.ZeroPageAndLimitDropped | src/redux/features/admin/adminUsersApi.ts:55-56 | empty search, page 0 and limit 0 are dropped, leaving `/admin/users?` |
| AdminUsersApi.CreateBody | src/redux/features/admin/adminUsersApi.ts:26-31 | the create body has exactly the fields fullName, email, password, role |
| AdminUsersApi.UpdateBody | src/redux/features/admin/adminUsersApi.ts:33-38 | an update body holds a field exactly when it is given, with the given value |
| AdminUsersApi.RequestFor | src/redux/features/admin/adminUsersApi.ts:50-125 | queries are GETs without credentials, mutations send credentials; only queries and delete have no body; the list goes to `/admin/users?` with its encoded parameters and a single user to `/admin/users/{id}`; create POSTs the four fields to `/admin/users`; update PUTs the partial body to the user's path and delete DELETEs it; a role change PATCHes `{role}` with the given role to `/admin/users/{id}/role`, a password change `{password}` with the given password to `/admin/users/{id}/password` |
| AdminUsersApi.UserPathInjective | src/redux/features/admin/adminUsersApi.ts:82 | different ids give different user paths |
| AdminUsersApi.RoleJsonInjective | src/redux/features/admin/adminUsersApi.ts:98 | different roles give different role bodies |
| AdminUsersApi.RequestDeterminesCall | src/redux/features/admin/adminUsersApi.ts:63-125 | two calls other than the list that issue the same request are the same call, so each request names one action on one user |
| AdminUsersApi.TransformResponse | src/redux/features/admin/adminUsersApi.ts:59 | the unwrapping endpoints read `response.data`, which throws exactly on a null response; password change and delete return the raw response |
| AdminUsersApi.UnwrapEnvelope | src/redux/features/admin/adminUsersApi.ts:65 | on an envelope `{data: x}` the unwrapping endpoints give `x`, the others the envelope |
| AdminUsersApi.ProvidedTags | src/redux/features/admin/adminUsersApi.ts:60-66 | the list provides the type tag only, a single user its own id tag only, mutations nothing |
| AdminUsersApi.InvalidatedTags | src/redux/features/admin/adminUsersApi.ts:77-124 | create, update, role change and delete invalidate the list tag; update, role and password changes invalidate exactly the changed user's tag |
| AdminUsersApi.RoleChangeStalesUserAndList | src/redux/features/admin/adminUsersApi.ts:102-105 | under the assumed matching rule a role change stales the user's entry and every list page |
| AdminUsersApi.PasswordChangeSparesList | src/redux/features/admin/adminUsersApi.ts:115 | under the assumed matching rule a password change stales that user's entry and neither a list page nor another user |
| AdminUsersApi.ListInvalidationStalesEveryQuery | src/redux/features/admin/adminUsersApi.ts:77 | under the assumed matching rule a mutation invalidating the list tag stales every admin user query, whatever its arguments |
| AdminAuthApi.RegisterBody | src/redux/features/admin/adminAuthApi.ts:10-14 | the registration body holds exactly those of fullName, email, password the input has, with the input's values |
| AdminAuthApi.RequestFor | src/redux/features/admin/adminAuthApi.ts:7-45 | every admin session call is a POST with credentials; register goes to `/admin/auth/register` with the three copied fields, login to `/admin/auth/login` with the credentials as they are, logout to `/admin/auth/logout` without a body |
| AdminAuthApi.RequestDeterminesCall | src/redux/features/admin/adminAuthApi.ts:7-45 | equal requests come from the same endpoint; for login and logout from the same call, for register from inputs with the same three copied fields |
| AdminAuthApi.Dispatched | src/redux/features/admin/adminAuthApi.ts:32-37 | `adminLoggedIn`, carrying `result.data.data`, is dispatched exactly for a fulfilled login whose response is not null or undefined; a null response throws inside the `try` and dispatches nothing |
| AdminAuthApi.LoginStoresReturnedAdmin | src/redux/features/admin/adminAuthApi.ts:36 | after a login answered with `{data: admin}` the session holds exactly `admin` |
| AdminAuthApi.OnlyLoginSuccessChangesSession | src/redux/features/admin/adminAuthApi.ts:17-46 | a failed login, any registration and any logout leave the admin session unchanged |
| AdminAuthApi.RegisterDropsExtraFields | src/redux/features/admin/adminAuthApi.ts:10-14 | adding any other field to the registration input does not change the request |
| AuthApi.RequestFor | src/redux/features/auth/authApi.ts:6-43 | every user session call is a POST with credentials; register goes to `/auth/register`, login to `/auth/login`, logout to `/auth/logout`; register and login forward their argument as the body; logout has none |
| AuthApi.RequestDeterminesCall | src/redux/features/auth/authApi.ts:6-43 | two calls that issue the same request are the same call |
| AuthApi.Dispatched | src/redux/features/auth/authApi.ts:28-35 | `userLoggedIn`, carrying `result.data.data`, is dispatched exactly for a fulfilled login whose response is not null or undefined; a null response throws inside the `try` and dispatches nothing |
| AuthApi.LoginDispatchesReturnedUser | src/redux/features/auth/authApi.ts:31 | a login answered with `{data: user}` dispatches exactly that user |
| AuthApi.RegisterAndLogoutDispatchNothing | src/redux/features/auth/authApi.ts:13-19 | registration and logout dispatch nothing, succeeded or failed |
| AdminAuthSlice.Reduce | src/redux/features/admin/adminAuthSlice.ts:16-21 | `adminLoggedIn` stores the given admin; `adminLogout` leaves nobody logged in |
| AdminAuthSlice.InitialIsLoggedOut | src/redux/features/admin/adminAuthSlice.ts:8-10 | the slice starts with nobody logged in |
| AdminAuthSlice.LoginOverwrites | src/redux/features/admin/adminAuthSlice.ts:16-18 | a login's result does not depend on who was logged in before |
| AdminAuthSlice.LogoutIdempotent | src/redux/features/admin/adminAuthSlice.ts:19-21 | logging out twice is logging out once |
| AdminAuthSlice.LoginThenLogout | src/redux/features/admin/adminAuthSlice.ts:16-21 | a login then a logout returns to the initial state from any state |
| ProjectSlice.Reduce | src/redux/features/project/projectSlice.ts:15-20 | setting stores the given id; clearing leaves no current project |
| ProjectSlice.InitialHasNoProject | src/redux/features/project/projectSlice.ts:7-9 | the slice starts with no current project |
| ProjectSlice.ClearIdempotent | src/redux/features/project/projectSlice.ts:18-20 | clearing twice is clearing once |
| ProjectSlice.SetThenClear | src/redux/features/project/projectSlice.ts:15-20 | setting then clearing returns to the initial state from any state |
| ProjectSlice.SetOverwrites | src/redux/features/project/projectSlice.ts:15-17 | the last id set wins |
| ProjectApi.RequestFor | src/redux/features/project/projectApi.ts:12-38 | queries are GETs and create and segmentation are POSTs; the list and create go to `/projects`, one project to `/projects/{id}`, segmentation to `projects/segment` (the one URL without the leading slash); only segmentation sends credentials; create forwards its argument; segmentation sends `{projectId}` |
| ProjectApi.CreateStalesNothing | src/redux/features/project/projectApi.ts:12-22 | no project endpoint provides or invalidates a tag, so creating a project stales no cached project entry under any matching rule |
| ProjectApi.ProjectPathInjective | src/redux/features/project/projectApi.ts:25 | different project ids give different requests |
| ProjectApi.RequestDeterminesCall | src/redux/features/project/projectApi.ts:12-38 | two calls that issue the same request are the same call |
| Messages.FailureText | src/components/Admin/Users/UserManagement.tsx:57 | the `\|\|` chain shows a truthy `detail`, else a truthy `message`, else the fallback |
| Messages.ErrorToast | src/components/Auth/Login/Login.tsx:37-42 | an error without `data` reads "Something went wrong"; otherwise a non-nullish `detail` is shown as is; the text is never nullish |
| Messages.SuccessToast | src/components/Auth/Login/Login.tsx:33 | a non-nullish `message` is shown, else the fallback |
| Messages.EmptyDetailFallbackStyles | src/components/Admin/Users/CreateUserDialog.tsx:61 | an empty `detail` falls through to the fallback under `\|\|` but is shown as an empty text under `??` |
| Messages.FailureTextNeverBlank | src/components/Admin/Users/EditUserDialog.tsx:84 | with a non-empty fallback the `\|\|` chain never yields a falsy text |
| Validation.SpecialClassListed | src/components/Auth/Register/Register.tsx:143 | the special-character class is exactly the ASCII punctuation other than backtick and tilde |
| Validation.CheckEmail | src/components/Auth/Register/Register.tsx:112 | the scan accepts exactly the strings matching `^\S+@\S+\.\S+$` |
| Validation.CheckStrongPassword | src/components/Auth/Register/Register.tsx:143 | the scan accepts exactly the passwords matching the registration pattern |
| Validation.PasswordPoliciesDisjoint | src/components/Admin/Auth/Register/AdminRegistration.tsx:107 | no password satisfies both the user and the admin registration patterns |
| Validation.EmailExamples | src/components/Auth/Login/Login.tsx:85 | "a@b.c" matches; a missing local part, an empty domain label or a space does not |
| Validation.PasswordExamples | src/components/Admin/Auth/Register/AdminRegistration.tsx:107 | "Passw0rd!" passes the user pattern but not the admin one; a tilde is not special; "Passw0rd" passes the admin one |
| AuthForms.SubmitRegister | src/components/Auth/Register/Register.tsx:48-50 | the sign-up values reach `/auth/register` unchanged, exactly when name, email pattern and strong password all hold |
| AuthForms.SubmitAdminRegister | src/components/Admin/Auth/Register/AdminRegistration.tsx:48-50 | the admin sign-up values are sent exactly when the admin rules hold, and the body is those three values |
| AuthForms.SubmitLogin | src/components/Auth/Login/Login.tsx:46-48 | the credentials are sent as typed exactly when the email matches and a password is given |
| AuthForms.SubmitAdminLogin | src/components/Admin/Auth/Login/AdminLogin.tsx:47-49 | the admin credentials are sent as typed exactly when the email matches and a password is given |
| AuthForms.OutcomeToast | src/components/Auth/Register/Register.tsx:32-45 | a success shows a success notification with the server's `message` when it is not null or undefined, else the page's success text; a failure shows an error notification with the server's `detail` when there is one, else the page's failure text, and "Something went wrong" when the error has no `data`; the text is never nullish |
| AuthForms.PageToast | src/components/Auth/Register/Register.tsx:34-42 | every page shows the server's `message` or `detail` when it is not null or undefined, and "Something went wrong" for an error without `data`; without a server text the sign-up page says "Account created!" or "Registration failed", the admin sign-up page "Admin created!" or "Registration failed", and the two sign-in pages "Logged in!" / "Admin logged in!" or "Login failed" (Login.tsx, AdminLogin.tsx and AdminRegistration.tsx repeat the same handler) |
| AuthForms.LoginShowsEmptyDetail | src/components/Auth/Login/Login.tsx:40 | an error whose `detail` is "" shows an empty notification |
| AuthForms.NoDataIsSomethingWentWrong | src/components/Auth/Login/Login.tsx:38-42 | an error without `data` reads "Something went wrong" on all four pages |
| AuthForms.RegistrationPagesDisagreeOnPasswords | src/components/Admin/Auth/Register/AdminRegistration.tsx:104-108 | no form is accepted by both the user and the admin sign-up page |
| AuthForms.AdminRegistrationRefusesSpecial | src/components/Admin/Auth/Register/AdminRegistration.tsx:107 | any special character makes the admin sign-up page refuse the form |
| UserDialogs.SubmitCreateUser | src/components/Admin/Users/CreateUserDialog.tsx:43-55 | an email the browser refuses blocks the submit before any rule runs; a valid form whose passwords differ shows "Passwords do not match" and sends nothing; one whose passwords agree sends the four fields |
| UserDialogs.CreateUserBodyHasNoConfirmation | src/components/Admin/Users/CreateUserDialog.tsx:50-55 | a sent create body has exactly fullName, email, password, role, never the confirmation, and a password of at least six characters |
| UserDialogs.DialogClosing | src/components/Admin/Users/CreateUserDialog.tsx:56-63 | a success says "User created successfully" (create) or "User updated successfully" (edit, EditUserDialog.tsx:79-85) and closes the dialog; a failure shows the `\|\|` chain with "Failed to create user" or "Failed to update user" and leaves it open; the text is never falsy |
| UserDialogs.ServerDetailOrFallback | src/components/Admin/Users/CreateUserDialog.tsx:59-62 | a non-empty server `detail` is shown as it is; an error without server text shows "Failed to create user" or "Failed to update user" (EditUserDialog.tsx:82-85) |
| UserDialogs.SubmitEditUser | src/components/Admin/Users/EditUserDialog.tsx:59-78 | an email the browser refuses blocks the submit; the mismatch check applies only to a typed password; without a user nothing is sent; otherwise the update targets that user's id, always carries name, email and role, and carries the password exactly when one was typed |
| UserDialogs.EmptyPasswordKeepsCurrent | src/components/Admin/Users/EditUserDialog.tsx:74-76 | an empty or untouched password sends no password, whatever the confirmation holds |
| UserDialogs.TypedPasswordIsSent | src/components/Admin/Users/EditUserDialog.tsx:74-78 | a typed and confirmed password reaches the body unchanged |
| UserList.QueryArgs | src/components/Admin/Users/UserManagement.tsx:35-40 | the list asks for the search text only when non-empty, with the role filter, the current page and a limit of ten |
| UserList.InitialRequest | src/components/Admin/Users/UserManagement.tsx:27-40 | the screen first requests `/admin/users?page=1&limit=10` |
| UserList.ServerSeesListState | src/components/Admin/Users/UserManagement.tsx:35-40 | the server reads back the search text when non-empty, the role filter, the page unless it is 0, and a limit of ten |
| UserList.CeilDiv | src/components/Admin/Users/UserManagement.tsx:76 | `Math.ceil(t / l)` for positive `l` is an `n` with `(n - 1) * l < t <= n * l` |
| UserList.CeilDivUnique | src/components/Admin/Users/UserManagement.tsx:76 | that `n` is the only one with those bounds |
| UserList.TotalPages | src/components/Admin/Users/UserManagement.tsx:76 | no data gives 0 pages; a positive limit gives the ceiling; a zero limit gives an infinity for a positive total and NaN for a zero total |
| UserList.PaginationIffOverflow | src/components/Admin/Users/UserManagement.tsx:161 | with a positive limit, pagination shows exactly when the total exceeds one page |
| UserList.PageWithinCount | src/components/Admin/Users/UserManagement.tsx:76 | a page from 1 is at most the page count exactly when some user comes after the earlier pages |
| UserList.RangeWithinTotal | src/components/Admin/Users/UserManagement.tsx:164-165 | on any page from 1 to the page count (in the form `PageWithinCount` gives), "Showing a to b" names a non-empty range inside 1 to total of at most one page |
| UserList.RangesTile | src/components/Admin/Users/UserManagement.tsx:164-165 | consecutive pages' ranges abut, and the last ends at the total |
| UserList.FortyFiveUsers | src/components/Admin/Users/UserManagement.tsx:76 | 45 users give five pages, the fifth showing 41 to 45 |
| UserList.ChosenRole | src/components/Admin/Users/UserManagement.tsx:114-116 | "All Roles" clears the filter; "admin" selects admins and "user" selects users |
| UserList.Step | src/components/Admin/Users/UserManagement.tsx:104-183 | typing a search or choosing a role resets to page 1 and changes only that filter; Previous and Next change only the page and do nothing while disabled or hidden; Previous goes back one; Next goes to the smaller of the next page and the page count, and to the next page when the count is infinite |
| UserList.StepKeepsPageInRange | src/components/Admin/Users/UserManagement.tsx:171-179 | while the data holds `n` pages, the page stays between 1 and `max(1, n)` across events |
| UserList.NextThenPrevious | src/components/Admin/Users/UserManagement.tsx:171-179 | below the last page, Next then Previous returns to the same state |
| UserList.BadgeFor | src/components/Admin/Users/UserTable.tsx:64 | the badge is "default" exactly for admins |
| UserList.CreatedFor | src/components/Admin/Users/UserTable.tsx:76-78 | a missing or empty creation date shows "N/A"; any other date is formatted |
| UserList.Rows | src/components/Admin/Users/UserTable.tsx:51-114 | an empty list renders exactly the "No users found" row; otherwise one row per user, in order, with that user's id, name, email and role |
| UserList.RowShowsBadgeAndDate | src/components/Admin/Users/UserTable.tsx:63-78 | each user's row has the filled badge exactly for admins and "N/A" exactly for a missing or empty creation date |
| UserList.View | src/components/Admin/Users/UserManagement.tsx:128-191 | the spinner follows loading and the error follows failure; the table shows exactly when neither holds and data is present; the empty state exactly when that data has no users |
| UserList.EmptyStateMatchesEmptyRow | src/components/Admin/Users/UserManagement.tsx:147-193 | a loaded page shows the table, and the empty state exactly when the table holds only the "No users found" row |
| UserList.EmptyHint | src/components/Admin/Users/UserManagement.tsx:196-200 | with no search and no role filter the empty state invites creating a user and offers the button; otherwise it suggests adjusting filters |
| UserList.SearchWithoutMatchesSuggestsAdjusting | src/components/Admin/Users/UserManagement.tsx:104-200 | a search that finds nobody suggests adjusting the filters without a Create button; the unfiltered first screen offers the button |
| UserList.HandleRoleChange | src/components/Admin/Users/UserManagement.tsx:62-66 | the handler asks for the opposite of the role it is given and announces the role it asked for |
| UserList.ChangeRoleClickAsWritten | src/components/Admin/Users/UserTable.tsx:94-97 | the table's item as written issues a role change for the clicked user |
| UserList.AsWrittenResendsCurrentRole | src/components/Admin/Users/UserTable.tsx:96 | as written, the request asks for the role the user already has, and the notification names it |
| UserList.AsWrittenAdminStaysAdmin | src/components/Admin/Users/UserManagement.tsx:63-65 | an admin's "Change Role" sends `{role: "admin"}` |
| UserList.ChangeRoleClick | src/components/Admin/Users/UserManagement.tsx:62-66 | corrected: the request asks for the other role and the notification names it |
| UserList.ChangeRoleTwiceRestores | src/redux/features/admin/adminUsersApi.ts:102-105 | two corrected clicks restore the role; each click stales the user's entry and the list |
| UserList.RoleChangeNotice | src/components/Admin/Users/UserManagement.tsx:66-72 | a success announces the new role and refetches; a failure shows the `\|\|` chain with "Failed to update role" |
| UserList.NoticeNamesSentRole | src/components/Admin/Users/UserManagement.tsx:62-69 | a successful role change announces the role the request carried: the other role for the corrected click, the unchanged role as written |
| UserList.DeleteRequest | src/components/Admin/Users/UserManagement.tsx:45-49 | a delete is sent for the pending id exactly when one is pending and it is not 0 |
| UserList.DeleteStep | src/components/Admin/Users/UserManagement.tsx:45-59 | choosing opens the dialog for that id; Cancel closes and forgets it; dismissing the dialog (line 232) closes it and keeps the id; a successful delete closes with "User deleted successfully"; a failure keeps the dialog and shows the `\|\|` chain with "Failed to delete user" |
| UserList.ChooseThenConfirmDeletesChosen | src/components/Admin/Users/UserManagement.tsx:153-156 | choosing a user then confirming deletes that user's path, unless its id is 0 |
| ProjectView.ScreenFor | src/components/Project/ProjectDetail.tsx:46-67 | the spinner shows exactly while loading; "Project not found" exactly when not loading and there is an error or no project |
| ProjectView.ActionFor | src/components/Project/ProjectDetail.tsx:117-138 | "draft" offers segmentation, "segmented" animation, "completed" playback, any other status nothing |
| ProjectView.ActionRequests | src/components/Project/ProjectDetail.tsx:37-44 | only "Segment into Scenes" issues requests: the segmentation of the route's project, then a reload of it |
| ProjectView.SegmentingSendsRouteId | src/components/Project/ProjectDetail.tsx:121 | only a draft can be segmented here; the body names the route's id and the reload asks for that project |
| ProjectView.SegmentOnlyFromLoadedDraft | src/components/Project/ProjectDetail.tsx:46-121 | segmentation requests can only come from a loaded page: not while loading, not after an error, and only for a draft |
| ProjectView.SceneCount | src/components/Project/ProjectDetail.tsx:145 | the scene count is the list's length, 0 when the list is missing |
| ProjectView.SceneGridIffScenes | src/components/Project/ProjectDetail.tsx:148 | the scene grid shows exactly when the count is positive |
| ProjectView.CharacterCount | src/components/Project/ProjectDetail.tsx:218 | the character count is the prompts' length, 0 when missing |
| ProjectView.CharacterPath | src/components/Project/ProjectDetail.tsx:225 | a character's path is undefined when the path list is missing or too short |
| ProjectView.CharacterReadyIff | src/components/Project/ProjectDetail.tsx:240 | a character is "Ready" exactly when its path is present, not null and not empty |
| ProjectView.CharacterLabel | src/components/Project/ProjectDetail.tsx:236 | a character's name is a comma-free prefix of its prompt that ends at the first comma, or is the whole prompt when it has none |
| ProjectView.GeneratingKeyInjective | src/components/Project/ProjectDetail.tsx:33 | different scene and index pairs give different markers, also for negative scene ids |
| ProjectView.Press | src/components/Project/ProjectDetail.tsx:28-35 | a background click marks that scene and leaves the character marker; a character click leaves the background marker |
| ProjectView.OnlyClickedCharacterSpins | src/components/Project/ProjectDetail.tsx:226-227 | after a character click exactly the clicked scene's clicked character button is busy |
| ProjectView.OnlyClickedBackgroundSpins | src/components/Project/ProjectDetail.tsx:189 | after a background click exactly the scenes with the clicked id show a busy background button |
| ProjectView.BackgroundCellFor | src/components/Project/ProjectDetail.tsx:181-199 | a scene shows the "Done" badge exactly when its background path is truthy, and otherwise the "Generate BG" button, spinning exactly while its scene id is the one being generated |
| ProjectView.BackgroundCellAfterClick | src/components/Project/ProjectDetail.tsx:181-199 | on a fresh page no background button spins; after a click exactly the buttons of the clicked scene id spin |
| ProjectView.CharacterLines | src/components/Project/ProjectDetail.tsx:221-275 | one line per prompt, in order, named by its prompt's first part, "Ready" exactly when its path is truthy, and otherwise a "Char n" button (n counted from 1) that is busy exactly when its marker is set |
| ProjectView.CharacterLineAfterClick | src/components/Project/ProjectDetail.tsx:221-275 | after a character click, a line reads "Ready" exactly when the backend sent a non-empty path, is named up to the first comma, and as a button spins exactly when it is the clicked one |
| ProjectView.SubmitProject | src/components/Project/CreateProjectDialog.tsx:36-38 | a project is created exactly when title and story are non-empty, by a POST of the form's values to `/projects` |
| ProjectView.DurationSentAsText | src/components/Project/CreateProjectDialog.tsx:101-107 | the duration is sent as the input's text, unchecked, and an untouched form sends the text "25" |
| ProjectView.ProjectCreatedNotice | src/components/Project/CreateProjectDialog.tsx:39-43 | a success closes the dialog with "Project is created successfully"; any failure shows a fixed text |
| ProjectView.NoticeTellsOutcome | src/components/Project/CreateProjectDialog.tsx:39-43 | the success and failure notices differ, so the text tells the outcome |

## Left out

- Store setup and the shared base query (`src/redux/store.ts`, `apiSlice`): the base URL, default credentials and headers are not part of this model. A request is modelled as its declaration states it.
- Http.Hits: the caching library's tag matching is assumed, not modelled from its source.
- Cache lifetimes, refetch timing and request deduplication are left out. So is the order in which concurrent requests settle. Every screen takes a request's outcome as an input.
- AdminUsersApi.EncodeParams: `URLSearchParams` percent-encoding is not modelled. Keys and values are joined as they are.
- Text.ParseInt: a stand-in for how a server reads a number back, used only by the round-trip lemmas. JavaScript's `Number()` on a route parameter is not modelled: ids arrive as integers.
- Validation: string lengths count Dafny characters. JavaScript counts UTF-16 code units, so a character outside the Basic Multilingual Plane counts once here and twice in the browser.
- Validation: the browser's value sanitisation of `type="email"` and `type="number"` inputs is not modelled.
- UserDialogs.SubmitCreateUser, UserDialogs.SubmitEditUser: these two forms do not set `noValidate` and their email inputs have `type="email"` (CreateUserDialog.tsx:94, EditUserDialog.tsx:119), so the browser checks the email before the form's handler runs. Its rule for a valid email address comes from the browser and is not modelled; the model takes the browser's verdict as the parameter `emailPassesBrowser`. An email the form's own pattern accepts, such as "a@b@c.d", may still be refused by the browser.
- UserList.CreatedFor: formatting the date with date-fns is left out. The cell keeps the raw text it would format.
- UserList.TotalPages: totals and limits are integers. A negative zero and non-integer numbers from the server are not modelled.
- UserList.Step: the page count is taken from the data currently shown. When the data changes under the current page, the page is not corrected, and the model does not claim it is.
- The user session slice and the user `authSlice` are not part of this model. Only the action dispatched to them is.
- Rendering is not modelled: markup, styling, images, icons, navigation after success and the animated background. Logo and AnimatedBackground are floating-point drawing code.
- The project dashboard, navigation bar, project cards, password reset pages and route wrappers are context outside the modelled core.
- `handleGenerateSegments` does not await its mutation, so its `catch` never sees a rejection and the reload may run before segmentation ends. The model records the two requests in the order they are issued.

## Findings

| source | as written | input that shows it | evidently intended | confidence | as-written member | corrected member |
|---|---|---|---|---|---|---|
| src/components/Admin/Users/UserTable.tsx:96 | the table passes the already flipped role, and `handleRoleChange` (UserManagement.tsx:63) flips it again | an admin with id 7: "Change Role" sends `PATCH /admin/users/7/role` with `{role: "admin"}` and says "User role changed to admin" | the table passes the current role, so the one flip asks for the other role | high; not executed | UserList.ChangeRoleClickAsWritten (shown by UserList.AsWrittenResendsCurrentRole) | UserList.ChangeRoleClick |
