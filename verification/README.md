# lara-react: a Dafny model of the blog's API and client state

The system is a small blog. A Laravel JSON API serves users, posts, bearer tokens and an admin
dashboard. A React client keeps its state in MobX stores.

This project models the core of both sides, one Dafny module per source file:

- **Backend.** Covers the post, auth, user and dashboard controllers, the admin middleware and the
  post resource. They work over a database of user rows, post rows (kept in insertion order) and
  personal access tokens (`Database.Db`).
- **Client.** Covers the post, dashboard and user stores, and the browser's `localStorage` and
  `sessionStorage` (`WebStorage.Storage`). It also covers the request and response interceptors
  of the HTTP client, the dependency container, the password-strength meter of the auth page, the
  ownership check, avatar colour and page adjustment of the posts page, and the side menu's
  selected entry.

**How the model treats the outside world**

- Every awaited service call is an input of type `Js.Outcome`. It either resolves with the
  response data or rejects with the error's `response.data.message`.
- Framework services are parameters, bundled in `Models.Services`: password hashing, the hash
  check and the e-mail rule.
- The authenticated guard user, the bearer token of the request and the clock are parameters too.

**Shared pieces**

- Validation returns the map from field to the first failing rule. The map is empty when the
  request passes (`Http`).
- The JavaScript string built-ins the client uses are defined once (`Strings`): `split`, `trim`,
  `startsWith`, `toLowerCase` on ASCII.
- Eloquent's `latest()`, `take` and `paginate` are defined as well (`Queries`).

## Model

| member | source | states |
|---|---|---|
| Strings.IndexOf | frontend/src/services/api.ts:98 | the first occurrence of the separator, and None exactly when it occurs nowhere |
| Strings.Split | frontend/src/services/api.ts:98-100 | at least one part, and no part contains the separator |
| Strings.JoinSplit | frontend/src/services/api.ts:98-100 | joining the parts of a split with the same separator gives back the original string |
| Strings.SplitHead | frontend/src/services/api.ts:100 | the first part is a prefix of the string, ending at the first separator or being the whole string |
| Strings.TrimStart | frontend/src/pages/PostsPage.tsx:201 | drops exactly the leading whitespace: the result is a suffix, starts with a non-space, and everything dropped is whitespace |
| Strings.TrimEnd | frontend/src/pages/PostsPage.tsx:201 | drops exactly the trailing whitespace |
| Strings.Trim | frontend/src/pages/PostsPage.tsx:201 | never longer than its input |
| Strings.TrimFirst | frontend/src/pages/PostsPage.tsx:201 | the trim is empty exactly when the string is all whitespace, and otherwise starts with a non-space |
| Strings.TrimKeepsFirst | frontend/src/pages/PostsPage.tsx:201 | a string that starts with a non-space keeps its first character under trim |
| Strings.ToUpperAsciiString | frontend/src/services/api.ts:55 | upper-cases every character and keeps the length |
| Strings.LowerForgetsCase | frontend/src/services/api.ts:55 | an upper-cased string lower-cases to what the original lower-cases to |
| Strings.ToUpperAscii | frontend/src/pages/PostsPage.tsx:201 | ASCII lower-case letters map to the matching upper-case letter; other characters are unchanged |
| Strings.ToLowerAscii | frontend/src/services/api.ts:55 | same length; ASCII capitals become the matching lower-case letter; other characters are unchanged |
| Js.Or | frontend/src/pages/PostsPage.tsx:163 | `a \|\| b` is `a` when `a` is truthy and `b` otherwise |
| Js.ErrorText | frontend/src/store/userStore.ts:77 | the server's message when present and non-empty, otherwise the fallback text |
| Queries.Insert | backend/app/Http/Controllers/Api/DashboardController.php:26-34 | inserting into a newest-first list keeps it newest-first and adds exactly the one element |
| Queries.Latest | backend/app/Http/Controllers/Api/DashboardController.php:52-55 | `latest()`/`orderBy('created_at','desc')`: newest-first and a permutation of the table |
| Queries.LatestNAreNewest | backend/app/Http/Controllers/Api/DashboardController.php:26-34 | `latest()->take(n)`: at most n rows, newest-first, drawn from the table, and no row left out is newer than a row taken |
| Queries.LatestN | backend/app/Http/Controllers/Api/DashboardController.php:26-34 | at most n rows, no more than the table holds, all drawn from the table |
| Queries.PageSlice | backend/app/Http/Controllers/Api/PostController.php:25 | a page never holds more than the page size |
| Queries.PageSliceNewestFirst | backend/app/Http/Controllers/Api/PostController.php:25 | a page of a newest-first list is newest-first |
| Queries.LastPage | backend/app/Http/Controllers/Api/PostController.php:25 | the last page is at least 1, and the smallest page count whose pages hold every row |
| Queries.PagesConcatenate | backend/app/Http/Controllers/Api/PostController.php:25 | the first k pages laid end to end are the first k·size rows |
| Queries.PagesCoverAll | backend/app/Http/Controllers/Api/PostController.php:25 | pages 1 through the last page laid end to end are exactly the whole list |
| Models.FindUser | backend/app/Http/Controllers/Api/UserController.php:89-93 | a found user is in the table with that id; None exactly when no row has the id |
| Models.FindUserByEmail | backend/app/Http/Controllers/Api/AuthController.php:60-64 | a found user has the e-mail; None exactly when no row has it |
| Models.FindPost | backend/app/Http/Controllers/Api/PostController.php:85-88 | a found post has the id; None exactly when no row has it |
| Models.FindUserUnique | backend/app/Http/Controllers/Api/UserController.php:89-93 | with distinct ids, looking up a row's id finds that row |
| Models.FindPostUnique | backend/app/Http/Controllers/Api/PostController.php:85-88 | with distinct ids, looking up a post's id finds that post |
| Models.FindUserByEmailUnique | backend/app/Http/Controllers/Api/AuthController.php:60-64 | with distinct e-mails, looking up a row's e-mail finds that row |
| Models.Public | backend/app/Http/Controllers/Api/UserController.php:19-43 | the user's JSON carries id, name, e-mail and admin flag |
| Models.PublicHidesPassword | backend/app/Http/Controllers/Api/UserController.php:19-43 | the user's JSON does not depend on the password hash |
| Database.TokenOwnerId | backend/app/Http/Controllers/Api/PostController.php:99-105 | a bearer token resolves to its tokenable id exactly when it is a stored token |
| Database.TokenOwner | backend/app/Http/Controllers/Api/PostController.php:40-54 | the token's owner row, or None when the token is unknown or its owner row is missing |
| Database.RevokeTokensOf | backend/app/Http/Controllers/Api/AuthController.php:89-92 | keeps exactly the tokens of other owners, unchanged |
| Database.RevokedTokensFailResolution | backend/app/Http/Controllers/Api/AuthController.php:89-92 | after revocation no bearer token resolves to the owner; other tokens resolve as before |
| Database.ReplaceUser | backend/app/Http/Controllers/Api/UserController.php:55-58 | the row with the user's id is replaced; every other row is kept in place |
| Database.ReplacePost | backend/app/Http/Controllers/Api/PostController.php:126-129 | the row with the post's id is replaced; every other row is kept in place |
| Database.RemovePost | backend/app/Http/Controllers/Api/PostController.php:165 | keeps exactly the posts with other ids |
| Database.ReplaceUserKeepsDistinct | backend/app/Http/Controllers/Api/UserController.php:48-61 | replacing a user with an e-mail no other row has keeps ids and e-mails distinct, and the new row is found by its id |
| Database.RemovePostKeepsDistinct | backend/app/Http/Controllers/Api/PostController.php:165 | deleting keeps post ids distinct |
| Database.Db.InsertUser | backend/app/Http/Controllers/Api/AuthController.php:29-33 | appends one row with a fresh id; posts and tokens unchanged |
| Database.Db.CreateToken | backend/app/Http/Controllers/Api/AuthController.php:38 | adds one fresh token for the owner; every existing token kept |
| Database.Db.DeleteTokensOf | backend/app/Http/Controllers/Api/AuthController.php:89-92 | the token table becomes the revocation of the owner's tokens |
| Database.Db.SaveUser | backend/app/Http/Controllers/Api/UserController.php:55-58 | the user table becomes the replacement, and the saved row is found by its id |
| Database.Db.InsertPost | backend/app/Http/Controllers/Api/PostController.php:68-72 | appends one post with a fresh id; users and tokens unchanged |
| Database.Db.SavePost | backend/app/Http/Controllers/Api/PostController.php:126-129 | the post table becomes the replacement |
| Database.Db.DeletePost | backend/app/Http/Controllers/Api/PostController.php:165 | the post table becomes the removal |
| PostResource.ToArray | backend/app/Http/Resources/PostResource.php:14-31 | copies id, title and content; the author is the loaded owner's id, name and e-mail, or the `Unknown` placeholder with a null id |
| PostResource.Serialize | backend/app/Http/Resources/PostResource.php:14-31 | the serialised post keeps the post's own fields |
| PostResource.AuthorIsOwner | backend/app/Http/Resources/PostResource.php:20-28 | the author id is the post's owner exactly when the owner row exists, and the placeholder otherwise |
| Http.RequiredMax | backend/app/Http/Controllers/Api/PostController.php:34-37 | `required\|max:n` passes exactly for a present, non-blank value of at most n characters |
| Http.Required | backend/app/Http/Controllers/Api/PostController.php:34-37 | `required` passes exactly for a present, non-blank value |
| Http.NewPasswordError | backend/app/Http/Controllers/Api/AuthController.php:23-27 | `required\|min:8\|confirmed` passes exactly for a present value of at least 8 characters equal to its confirmation |
| Http.AddError | backend/app/Http/Controllers/Api/PostController.php:34-37 | a failing rule adds the field's error; a passing rule leaves the map unchanged |
| PostController.PostErrors | backend/app/Http/Controllers/Api/PostController.php:34-37 | no errors exactly when the title is present and at most 255 characters and the content is present; each field errs exactly when its own rule fails |
| PostController.StoreOwner | backend/app/Http/Controllers/Api/PostController.php:40-66 | the owner comes from the bearer token's user when its row exists; an orphaned token is a server error; without a token, from the guard user; otherwise no user |
| PostController.MutationActor | backend/app/Http/Controllers/Api/PostController.php:99-111 | with a stored token the actor id is its tokenable id; without one, the guard user's |
| PostController.AuthorOrAdmin | backend/app/Http/Controllers/Api/PostController.php:113-119 | the author may always mutate, and another user may exactly when they are an admin |
| PostController.CanMutate | backend/app/Http/Controllers/Api/PostController.php:114-117 | the author may always mutate; nobody without an id or a user may |
| PostController.MissingOwnerRowComparesTokenableId | backend/app/Http/Controllers/Api/PostController.php:99-119 | a token whose user row is gone still authorises changes to the posts owned by its tokenable id |
| PostController.AnonymousCannotMutate | backend/app/Http/Controllers/Api/PostController.php:113-119 | with neither a token nor a guard user no post can be changed |
| PostController.SerializeAll | backend/app/Http/Controllers/Api/PostController.php:26 | `PostResource::collection`: one resource per row, in order |
| PostController.Index | backend/app/Http/Controllers/Api/PostController.php:22-27 | per-page defaults to 10; the page holds at most per-page posts of the newest-first list, serialised; total is the post count; last page is the least page count that holds every post |
| PostController.IndexPagesCoverAllPosts | backend/app/Http/Controllers/Api/PostController.php:22-27 | every page is newest-first, and the pages together hold every post exactly once |
| PostController.Show | backend/app/Http/Controllers/Api/PostController.php:85-88 | 404 exactly when no post has the id; otherwise 200 with the serialised post |
| PostController.Store | backend/app/Http/Controllers/Api/PostController.php:32-80 | 422 with the errors and no change when invalid; 401 with no user; 500 for an orphaned token; otherwise exactly one new post owned by the resolved user, answered with status 200 |
| PostController.Update | backend/app/Http/Controllers/Api/PostController.php:93-132 | 404, then 403 unless author or admin, then 422, each with no change; otherwise only title and content of that post change |
| PostController.Destroy | backend/app/Http/Controllers/Api/PostController.php:137-168 | 404, then 403 unless author or admin; otherwise exactly that post is removed |
| AuthController.NewEmailError | backend/app/Http/Controllers/Api/AuthController.php:23-27 | the e-mail passes exactly when present, a valid address, at most 255 characters and used by no user |
| AuthController.RegisterErrors | backend/app/Http/Controllers/Api/AuthController.php:23-27 | no errors exactly when name, e-mail and password rules all pass |
| AuthController.Register | backend/app/Http/Controllers/Api/AuthController.php:21-48 | 422 and no change when invalid; otherwise one new non-admin user with the hashed password and one fresh token for them, answered 201 |
| AuthController.LoginErrors | backend/app/Http/Controllers/Api/AuthController.php:55-58 | no errors exactly when the e-mail is present and valid and the password present |
| AuthController.Attempt | backend/app/Http/Controllers/Api/AuthController.php:60-64 | a user is returned exactly when the row with that e-mail exists and its hash checks against the password |
| AuthController.Login | backend/app/Http/Controllers/Api/AuthController.php:53-81 | 422 with no change on failure, both for invalid input and for bad credentials; otherwise the old tokens stay and one fresh token for the user is added |
| AuthController.Logout | backend/app/Http/Controllers/Api/AuthController.php:85-95 | every token of the guard user is deleted, nothing else changes, and the answer is 200 |
| AuthController.MintedTokenResolvesToOwner | backend/app/Http/Controllers/Api/AuthController.php:38 | a token just minted for a user resolves to that user |
| AuthController.RegisteredUserCanLogIn | backend/app/Http/Controllers/Api/AuthController.php:29-64 | after registering, the same e-mail and password pass the login attempt |
| AuthController.LogoutEndsEverySession | backend/app/Http/Controllers/Api/AuthController.php:89-92 | after logout no bearer token resolves to the user |
| UserController.GetCurrentUser | backend/app/Http/Controllers/Api/UserController.php:19-43 | the bearer token's user when it resolves, otherwise the guard user |
| UserController.CurrentUserOwnsNewPosts | backend/app/Http/Controllers/Api/UserController.php:19-43 | the user reported as current is the one a new post is attributed to |
| UserController.ProfileEmailError | backend/app/Http/Controllers/Api/UserController.php:50-53 | the e-mail passes exactly when present, valid, at most 255 characters and used by no other user |
| UserController.ProfileErrors | backend/app/Http/Controllers/Api/UserController.php:50-53 | no errors exactly when both name and e-mail pass |
| UserController.UpdateProfile | backend/app/Http/Controllers/Api/UserController.php:48-61 | 422 and no change when invalid; otherwise only the actor's name and e-mail change |
| UserController.UpdatedProfileFoundByEmail | backend/app/Http/Controllers/Api/UserController.php:48-61 | after an update to an unused e-mail, looking up the new e-mail finds the updated user |
| UserController.PasswordErrors | backend/app/Http/Controllers/Api/UserController.php:68-71 | no errors exactly when the current password is present and the new one passes `required\|min:8\|confirmed` |
| UserController.ChangePassword | backend/app/Http/Controllers/Api/UserController.php:66-84 | 422 on invalid input or a wrong current password, with no change; otherwise only the actor's hash is replaced |
| UserController.NewPasswordLogsIn | backend/app/Http/Controllers/Api/UserController.php:66-84 | after the change the new password passes the login attempt |
| UserController.GetUserProfile | backend/app/Http/Controllers/Api/UserController.php:89-93 | 200 exactly when the id exists, with a body that is some row with that id serialised in full (id, name, e-mail, admin flag, creation time); otherwise 404 |
| UserController.ProfileOfRow | backend/app/Http/Controllers/Api/UserController.php:89-93 | with distinct ids, the profile of a row is exactly that row, serialised |
| UserController.GetAllUsers | backend/app/Http/Controllers/Api/UserController.php:98-103 | a `data` list with one entry per user, in table order, carrying that row's id, name, e-mail, admin flag and creation time |
| UserController.AllUsersHidePasswords | backend/app/Http/Controllers/Api/UserController.php:98-103 | tables that differ only in password hashes give the same listing |
| DashboardController.CountAdmins | backend/app/Http/Controllers/Api/DashboardController.php:24 | at most the user count, and equal to it exactly when every user is an admin |
| DashboardController.PostsCount | backend/app/Http/Controllers/Api/DashboardController.php:53 | at most the post count, and zero exactly when the user owns no post |
| DashboardController.WithOwner | backend/app/Http/Controllers/Api/DashboardController.php:31 | the post with its owner's id and name exactly when the owner row exists |
| DashboardController.Index | backend/app/Http/Controllers/Api/DashboardController.php:20-45 | the stats are the user, post and admin counts; the recent lists are the five newest users and posts, each post with its owner's id and name when the owner row exists |
| DashboardController.Users | backend/app/Http/Controllers/Api/DashboardController.php:50-58 | every user, newest first, each with the number of posts they own |
| DashboardController.SumCountsAppend | backend/app/Http/Controllers/Api/DashboardController.php:53 | one more post raises the summed counts by one exactly when its owner is listed |
| DashboardController.PostsCountAppend | backend/app/Http/Controllers/Api/DashboardController.php:53 | one more post raises its owner's count by one and no other |
| DashboardController.CountsAddUpToPosts | backend/app/Http/Controllers/Api/DashboardController.php:50-58 | when every post has an owner row, the listed counts add up to the number of posts |
| DashboardController.ZeroCounts | backend/app/Http/Controllers/Api/DashboardController.php:53 | with no posts every count is zero |
| DashboardController.FlipAdmin | backend/app/Http/Controllers/Api/DashboardController.php:65-67 | only the row with the id has its admin flag negated |
| DashboardController.FlipAdminTwice | backend/app/Http/Controllers/Api/DashboardController.php:63-73 | toggling twice restores the table |
| DashboardController.FlipAdminCount | backend/app/Http/Controllers/Api/DashboardController.php:63-73 | toggling one user changes the admin count by exactly one, in the matching direction |
| DashboardController.FlipAbsent | backend/app/Http/Controllers/Api/DashboardController.php:63-73 | toggling an id no row has changes nothing |
| DashboardController.ToggleAdmin | backend/app/Http/Controllers/Api/DashboardController.php:63-73 | 404 and no change for an unknown id; otherwise only that user's flag flips, answered with the fixed success message and the updated id, name, e-mail and flag |
| AdminMiddleware.Handle | backend/app/Http/Middleware/AdminMiddleware.php:16-27 | the request passes to the handler exactly when the user is authenticated and an admin; otherwise 403 with the fixed body |
| WebStorage.Lookup | frontend/src/store/userStore.ts:52 | `getItem` finds a value exactly when some entry has the key, and the value is stored under it |
| WebStorage.FilterOut | frontend/src/store/userStore.ts:279-282 | keeps exactly the entries whose key is not removed |
| WebStorage.FilterOutNothing | frontend/src/store/userStore.ts:279-282 | removing no keys changes nothing |
| WebStorage.FilterOutTwice | frontend/src/store/userStore.ts:279-282 | removing keys one after another is removing them all at once |
| WebStorage.FilterOutKeepsDistinct | frontend/src/store/userStore.ts:279-282 | removal keeps keys distinct |
| WebStorage.Store | frontend/src/store/userStore.ts:60 | after `setItem` the key reads back the value and every other key reads as before |
| WebStorage.StoreKeepsDistinct | frontend/src/store/userStore.ts:60 | `setItem` keeps keys distinct and introduces only the new pair |
| WebStorage.Storage.RemoveItem | frontend/src/store/userStore.ts:281 | the entry for the key is gone and all others stay |
| WebStorage.Storage.SetItem | frontend/src/store/userStore.ts:60 | the storage becomes the `setItem` of the old contents |
| WebStorage.Storage.Clear | frontend/src/store/userStore.ts:285 | the storage is empty |
| Api.CookieValue | frontend/src/services/api.ts:96-103 | a found cookie value is non-empty and contains no `;` |
| Api.BeforeSemicolon | frontend/src/services/api.ts:100 | a prefix without `;`, ending at the first `;` or at the end |
| Api.CookieLookup | frontend/src/services/api.ts:96-103 | null when `; name=` does not occur or occurs twice; for a single occurrence, the text after it up to the next `;`, null when empty |
| Api.CookieFound | frontend/src/services/api.ts:96-103 | a found value follows the only occurrence of `; name=` and runs to a `;` or to the end |
| Api.NeedsCsrf | frontend/src/services/api.ts:55 | a missing method never needs a CSRF cookie; one that does is 3 to 6 characters long, as the four method names are |
| Api.CsrfIgnoresCase | frontend/src/services/api.ts:55 | for every method string, upper-casing it does not change whether a CSRF cookie is needed |
| Api.RequestConfig.Intercept | frontend/src/services/api.ts:50-88 | X-XSRF-TOKEN is set to the decoded cookie exactly when the method needs it, the cookie fetch succeeded and the cookie decodes; Authorization is `Bearer <token>` exactly when a non-empty token is stored; no other header changes |
| Api.OnResponseError | frontend/src/services/api.ts:114-127 | a 401 removes the stored token and redirects to login; any other status leaves storage alone |
| Container.Lookup | frontend/src/utils/container.ts:35-44 | resolves exactly when the key is registered with a truthy value, otherwise `Dependency not found: <key>` |
| Container.RegisterThenResolve | frontend/src/utils/container.ts:27-44 | a registered truthy dependency resolves to itself, and the later of two registrations wins |
| Container.RegisterIsolated | frontend/src/utils/container.ts:27-30 | registering one key does not change how any other key resolves |
| Container.DependencyContainer.Register | frontend/src/utils/container.ts:27-30 | the map gains or overwrites exactly that key |
| Container.DependencyContainer.Resolve | frontend/src/utils/container.ts:35-44 | the lookup of the key, with the container unchanged |
| Container.Singleton.GetInstance | frontend/src/utils/container.ts:17-22 | the first call creates an empty container and every later call returns that same one |
| Layout.SelectedKey | frontend/src/components/layout/Layout.tsx:26-32 | always one of the four menu keys; Posts for `/posts…`, Profile and Settings for their prefixes when not under `/posts`, the dashboard otherwise |
| Layout.LinkSelectsItsEntry | frontend/src/components/layout/Layout.tsx:26-67 | following a menu link highlights that same entry |
| Layout.NestedPathsKeepSection | frontend/src/components/layout/Layout.tsx:28-29 | paths below `/posts/` and `/profile/` keep their section highlighted |
| ClientPosts.ReplaceById | frontend/src/store/postStore.ts:175 | every post with the id is replaced and the rest kept in place |
| ClientPosts.RemoveById | frontend/src/store/postStore.ts:210 | keeps exactly the posts with other ids |
| ClientPosts.RemoveByIdAppend | frontend/src/store/postStore.ts:210 | filtering distributes over concatenation |
| ClientPosts.RemoveAbsentId | frontend/src/store/postStore.ts:210 | deleting an id no post has keeps the list |
| ClientPosts.DeleteUndoesCreate | frontend/src/store/postStore.ts:146-210 | deleting a just-created post restores the list it was prepended to |
| ClientPosts.ReplaceByIdLaws | frontend/src/store/postStore.ts:175 | replacing an absent id changes nothing, and replacing twice is replacing once |
| ClientPosts.Clamp | frontend/src/store/postStore.ts:215 | `Math.max(0, n)`: never below n or zero, and n itself when non-negative |
| ClientPosts.PostStore.OpenPostModal | frontend/src/store/postStore.ts:36-41 | the modal opens on the given post |
| ClientPosts.PostStore.ClosePostModal | frontend/src/store/postStore.ts:43-47 | the modal closes and no post is being edited |
| ClientPosts.PostStore.FetchPosts | frontend/src/store/postStore.ts:49-76 | a response replaces the list and the page counters; a failure keeps them and records the error; loading ends either way |
| ClientPosts.PostStore.CreatePost | frontend/src/store/postStore.ts:136-164 | the new post is prepended and the total raised by one; a failure keeps the list and records the error |
| ClientPosts.PostStore.UpdatePost | frontend/src/store/postStore.ts:166-195 | the post is replaced by id in the list and, when open, as the current post; a failure keeps both |
| ClientPosts.PostStore.DeletePost | frontend/src/store/postStore.ts:197-250 | a truthy answer removes the post, lowers the total (not below 0) and clears it as current; a falsy answer or a failure changes nothing but the error |
| ClientDashboard.Merge | frontend/src/store/dashboardStore.ts:77 | the patch's fields overwrite the user's; created-at and posts count are kept |
| ClientDashboard.FirstIndex | frontend/src/store/dashboardStore.ts:75 | `findIndex`: the first position with the id, or None exactly when none has it |
| ClientDashboard.MergeFirst | frontend/src/store/dashboardStore.ts:75-78 | only the first user with the id is merged; the list is unchanged when there is none |
| ClientDashboard.MergedUserFound | frontend/src/store/dashboardStore.ts:75-78 | after the merge, the first user with the id carries the patch |
| ClientDashboard.FirstIndexOf | frontend/src/store/dashboardStore.ts:75 | the first position holding the id is what `findIndex` returns |
| ClientDashboard.DashboardStore.LoadDashboardData | frontend/src/store/dashboardStore.ts:21-42 | the data on success, the error text on failure, loading ends |
| ClientDashboard.DashboardStore.LoadUsers | frontend/src/store/dashboardStore.ts:44-65 | the user list on success; on failure the list is kept and the error recorded |
| ClientDashboard.DashboardStore.ToggleUserAdmin | frontend/src/store/dashboardStore.ts:67-92 | the returned user is merged into the list and the dashboard reloaded; a failure records the error |
| ClientDashboard.DashboardStore.ClearError | frontend/src/store/dashboardStore.ts:94-98 | the error is cleared |
| ClientUsers.AuthTokenKeyIsSensitive | frontend/src/store/userStore.ts:268-274 | `auth_token` is among the keys the clean-up removes |
| ClientUsers.SensitiveKeys | frontend/src/store/userStore.ts:265-277 | exactly the stored keys containing auth, token, user, admin or session |
| ClientUsers.KeepInsensitive | frontend/src/store/userStore.ts:264-282 | exactly the entries whose key is not sensitive |
| ClientUsers.RemovingSensitiveKeys | frontend/src/store/userStore.ts:264-282 | removing the collected keys leaves exactly the insensitive entries |
| ClientUsers.TokenRemovalAbsorbed | frontend/src/services/authService.ts:15-18 | removing `auth_token` before the clean-up makes no difference to its result |
| ClientUsers.ClearedStorageHasNoToken | frontend/src/store/userStore.ts:319 | after the clean-up no sensitive key is left and `auth_token` reads as null |
| ClientUsers.AdminFlagMustBeTrue | frontend/src/store/userStore.ts:325-331 | admin implies authenticated; a truthy but non-`true` flag is not admin; nobody signed in is not admin |
| ClientUsers.IsAuthenticated | frontend/src/store/userStore.ts:325-327 | nobody signed in is not authenticated |
| ClientUsers.IsAdmin | frontend/src/store/userStore.ts:329-331 | an admin is authenticated, and a flag other than `true` is never admin |
| ClientUsers.UserStore.constructor | frontend/src/store/userStore.ts:14-25 | a store starts signed out and then runs `loadUser`: without a stored token nothing else changes; with one it is signed in as the fetched user, or everything is cleared when the fetch fails |
| ClientUsers.UserStore.OpenAuthModal | frontend/src/store/userStore.ts:28-32 | the modal opens in the given mode |
| ClientUsers.UserStore.CloseAuthModal | frontend/src/store/userStore.ts:35-38 | the modal closes |
| ClientUsers.UserStore.SwitchAuthMode | frontend/src/store/userStore.ts:41-44 | only the mode changes |
| ClientUsers.UserStore.CollectSensitiveKeys | frontend/src/store/userStore.ts:265-277 | the loop collects exactly the sensitive keys, in storage order |
| ClientUsers.UserStore.PurgeLocalStorage | frontend/src/store/userStore.ts:264-281 | local storage keeps exactly its entries whose key mentions none of the sensitive words, and stays free of duplicate keys |
| ClientUsers.UserStore.ClearAllData | frontend/src/store/userStore.ts:250-323 | local storage keeps exactly its insensitive entries, session storage is emptied, the user is signed out and the post and dashboard stores are reset |
| ClientUsers.UserStore.BeginSignIn | frontend/src/store/userStore.ts:47-56 | a stored token triggers the full clean-up first; the error is cleared and loading starts |
| ClientUsers.UserStore.SignIn | frontend/src/store/userStore.ts:46-124 | on success the token is stored, the user set and the modal closed; on failure the error text is recorded and returned |
| ClientUsers.UserStore.CompleteSignIn | frontend/src/store/userStore.ts:60-66 | the token is stored under `auth_token`, the user is set and the modal closes |
| ClientUsers.UserStore.Login | frontend/src/store/userStore.ts:46-84 | a stored token first resets the other stores, empties session storage and purges local storage; success then stores the new token, sets the user and closes the modal; failure reports the message or `Login failed` and leaves the user and modal as the clean-up left them |
| ClientUsers.UserStore.Register | frontend/src/store/userStore.ts:86-124 | as Login, with `Registration failed` as the fallback message |
| ClientUsers.UserStore.Logout | frontend/src/store/userStore.ts:126-143 | whether the server call succeeds or not, all local data is cleared and success is reported |
| ClientUsers.UserStore.LoadUser | frontend/src/store/userStore.ts:145-168 | without a token nothing changes; with one, the user is loaded, or everything is cleared when the call fails |
| AuthPage.EvaluatePasswordStrength | frontend/src/pages/AuthPage.tsx:95-108 | the computed strength is the score of the password |
| AuthPage.ScoreBounds | frontend/src/pages/AuthPage.tsx:95-108 | the score lies in [0, 100] and the cap at 100 never changes it |
| AuthPage.Score | frontend/src/pages/AuthPage.tsx:95-108 | at most 100; 0 for the empty password and for a password that meets none of the criteria |
| AuthPage.ClassesAfterAppend | frontend/src/pages/AuthPage.tsx:102-105 | each character-class test of `p + c` is that of `p` or the class of `c` |
| AuthPage.ClassCountsOnce | frontend/src/pages/AuthPage.tsx:100-105 | a character whose classes are already present adds nothing unless it crosses the length 6 or 10 threshold |
| AuthPage.StrengthText | frontend/src/pages/AuthPage.tsx:117-122 | one of Weak, Fair, Good, Strong |
| AuthPage.ColorFollowsLabel | frontend/src/pages/AuthPage.tsx:110-122 | the colour is a function of the label; labels are monotone in the score |
| AuthPage.StrengthColor | frontend/src/pages/AuthPage.tsx:110-115 | one of the four colours, the one matching the label of the same score |
| AuthPage.RegisterDisabled | frontend/src/pages/AuthPage.tsx:337 | disabled exactly for a positive score labelled Weak |
| AuthPage.WhenRegisterIsDisabled | frontend/src/pages/AuthPage.tsx:337 | the button is disabled exactly for a non-empty password shorter than 10 characters that meets exactly one of the five criteria: length at least 6, a lower-case letter, an upper-case letter, a digit, a special character |
| PostsPage.HeadIndex | frontend/src/pages/PostsPage.tsx:201-208 | always a valid palette position |
| PostsPage.AvatarIndex | frontend/src/pages/PostsPage.tsx:199-209 | always a valid palette position; 0 for a falsy or non-string name |
| PostsPage.AvatarIndexOfHead | frontend/src/pages/PostsPage.tsx:201-205 | a head letter A-Z after upper-casing picks its alphabet position, with no wrap-around |
| PostsPage.AvatarColor | frontend/src/pages/PostsPage.tsx:199-209 | always a palette colour; the first one for a falsy or non-string name |
| PostsPage.AvatarColorByLetter | frontend/src/pages/PostsPage.tsx:199-209 | a name starting with a Latin letter gets the colour at that letter's alphabet position, case-insensitively |
| PostsPage.UpperHead | frontend/src/pages/PostsPage.tsx:201 | a-z become the matching capital and A-Z stay as they are |
| PostsPage.AvatarColorOfHead | frontend/src/pages/PostsPage.tsx:201-205 | the colour follows the upper-cased first character of the trimmed name |
| PostsPage.BlankNameGetsLastColor | frontend/src/pages/PostsPage.tsx:199-209 | an all-whitespace name gets the last palette colour |
| PostsPage.AnonymousMatchesAuthorless | frontend/src/pages/PostsPage.tsx:161-178 | nobody signed in passes the check for a post with neither user id nor author; a signed-in non-author never does |
| PostsPage.FromServer | backend/app/Http/Resources/PostResource.php:14-31 | the client post has the resource's id, no `user_id` and an author |
| PostsPage.ClientCheckMatchesOwnership | frontend/src/pages/PostsPage.tsx:161-178 | for a post as served, the check passes exactly for its owner while the owner row exists, and never with nobody signed in |
| PostsPage.CanEditPost | frontend/src/pages/PostsPage.tsx:161-178 | passes exactly when the signed-in user's id strictly equals the author id, or, with nobody signed in, when the author id is `undefined` |
| PostsPage.PageAfterDelete | frontend/src/pages/PostsPage.tsx:121-126 | the page stays or steps back by one, never below 1 |
| PostsPage.AsWrittenAlwaysStepsBack | frontend/src/pages/PostsPage.tsx:121-126 | while the list holds at most one page of posts (no post created since the last fetch), every successful delete on page 2 or later steps back a page |
| PostsPage.PageAfterDeleteIntended | frontend/src/pages/PostsPage.tsx:121-126 | steps back exactly when the page was emptied, never below 1 |
| PostsPage.IntendedDiffersOnlyWhenPostsRemain | frontend/src/pages/PostsPage.tsx:121-126 | the two rules agree on an emptied page; they differ exactly on a later page whose remaining count is positive and at most `(currentPage - 1) * pageSize`, which, while the list holds at most one page, is every later page with posts left |

## Left out

- Logging (`logger`, `console`), the React rendering, routing, `message` toasts, modal confirmation dialogs and `setTimeout` delays are not modelled.
- The database is in memory: no SQL, collation or transactions. E-mail uniqueness is exact string equality.
- Timestamps are natural numbers from a clock parameter. `created_at`/`updated_at` formatting in the resource is left out.
- Password hashing and the e-mail format rule are parameters (`Models.Services`). The model assumes only that a hash checks against its own password (`Models.HashSound`).
- Validation messages are reduced to the name of the first failing rule per field. The `string` rule for non-string JSON values is not modelled.
- `per_page` values below 1 are outside the model (`PostController.Index` takes a positive size).
- The 404 body for a missing route-bound model is the constant `Http.NotFound`, standing for the framework's message.
- UserController.UpdateProfile: requires an existing actor. The route's `auth:sanctum` middleware guarantees one; the middleware is not part of this model.
- UserController.ChangePassword: requires an existing actor, for the same reason.
- Api.RequestConfig.Intercept: `decodeURIComponent` is a parameter (None when it throws); the cookie jar after the CSRF fetch is an input.
- Api.OnResponseError: the 419 retry (refresh the CSRF cookie and resend) and the `window.location` assignment are not modelled beyond the redirect flag.
- postService.ts and userService.ts are not part of this model. Their answers are `Js.Outcome` inputs. The post store therefore takes the resolved value of the delete call as given, whatever it is.
- ClientPosts.PostStore.FetchPosts: takes the `{data, meta}` response shape as given and does not model other shapes.
- postStore's `fetchAllPosts`, `fetchPostById` and `loadPosts`, and userStore's `updateProfile`, `changePassword` and `getUserProfile`, are not modelled.
- ClientUsers.UserStore.ClearAllData: the cookie expiry loop is left out, because cookies are not part of the model's state.
- Strings.ToLowerAscii and PostsPage.UpperHead: only ASCII case mapping is modelled, plus the few non-ASCII characters whose upper case begins with a Latin capital.
- AuthPage.Score: lengths count characters, not UTF-16 code units, so a password with characters outside the Basic Multilingual Plane is shorter in the model than `password.length` (three emoji score 20 in the browser and 0 here).
- Container.Singleton: the class-level static slot is an explicit object.
- Js.JsValue: numbers are integers. NaN, negative zero and fractions are not modelled, so the truthiness and `===` of those values are not captured.
- Queries.Latest: rows with equal `created_at` keep their table order. SQL leaves that order open, so the model fixes one of the orders the database may return.
- ClientUsers.UserStore.constructor: the start-up `loadUser` is modelled with its await collapsed, so the short window in which `loading` is true is not a state of the model.
- postService.ts as written resolves `deletePost` to `undefined` and returns a bare array from `getAllPosts`. The post store's delete and fetch are modelled on the answers their code expects, given as inputs; the model does not capture that these service functions never supply them.

## Findings

| source | as written | input that shows it | evidently intended | confidence | as-written member | corrected member |
|---|---|---|---|---|---|---|
| frontend/src/pages/PostsPage.tsx:121-126 | after a delete, steps back a page when the count of posts left on the current page is at most `(currentPage - 1) * pageSize` | page 2, page size 10, 9 posts left on the page: goes to page 1 although page 2 still has posts | step back only when the current page has been emptied | not executed | PostsPage.AsWrittenAlwaysStepsBack | PostsPage.IntendedDiffersOnlyWhenPostsRemain |
