# Role-based authentication demo — a Dafny model

This project models the decision logic of a small employee/manager
authentication demo. It has two halves: a React single-page client and a
Django REST backend. What is modelled:

- **Session store** (`AuthStore`). The client's store has five fields.
  `login` and `register` each have a start step and an outcome step; the
  other transitions are `logout`, `clearError` and the persisted subset.
- **Access guard and route table** (`ProtectedRoute`, `AppRoutes`). The
  guard's decision is a pure function. The route table is a list of paths,
  searched first match first. Following the guard's and the aliases'
  redirects, with a fuel bound, says where a navigation lands.
- **Destinations** (`LoginForm`, `RegisterForm`, `IndexPage`, `Navbar`,
  `ForbiddenPage`). Each screen that navigates after sign-in picks its
  target from the role. The registration form makes the login form's
  choice after `register`, so the model defines it once, as
  `LoginForm.Destination`. `NavigationFacts` relates these targets to one
  another and to the route table.
- **Form validators** (`LoginForm`, `RegisterForm`, `EmailPattern`,
  `AdminDashboard`). The email regex `\S+@\S+\.\S+` is stated literally, as
  an existential over match positions. A loop method decides it.
- **Mock authentication service** (`MockAuth`). A user list with
  case-insensitive lookup, duplicate refusal and sequential ids. A token is
  `btoa(JSON.stringify(payload))`, written out character by character:
  - `btoa` throws on a name, email or id with a character above U+00FF;
  - a registration whose token fails to encode has already stored the
    account;
  - the token is one base64 string with no dot, so the JWT decoder used by
    `validateToken` finds no payload part, throws, and no generated token
    ever validates (`MockAuth.GeneratedTokenNeverValidates`).
- **API helpers** (`Api`): error normalisation and request headers.
- **Backend accounts app** (`AccountsModels`, `AccountsSerializers`,
  `AccountsAdmin`, `AccountsViews`):
  - `create_user` and `create_superuser`;
  - the serializer's profile selection and field visibility;
  - the admin inline choice;
  - the status and body of the register, login and logout endpoints.
- **Client/server contract** (`ClientServer`): how the store reads the
  backend's responses.

Shared pieces:

- `Wrappers` holds `Option` and `Result`.
- `JsText` holds the JavaScript string operations the client uses:
  - the `trim` whitespace set, which is exact;
  - `||` on strings;
  - UTF-16 length;
  - ASCII lower-casing;
  - `String(n)`;
  - the one-byte range `btoa` accepts (`Latin1`).
- `JsonText` holds `JSON.stringify` of a flat object of strings and
  integers, and the reading of a quoted string back.
- `Base64` holds the standard base64 alphabet with `=` padding (section 4 of
  RFC 4648), as `btoa` uses it, and its decoding.
- `PyValues` holds the Python values the backend tests: truthiness,
  `is True`, `get` and `setdefault`.

Roles are `Employee | Manager | Admin`. The client's user type admits only
the first two (`IsUserRole`), but the route table and the admin form also
name `admin`. Keeping all three constructors shows what happens when a user
with role `admin` reaches the client:

- the guard sends an admin user back and forth between
  `/manager-dashboard` and `/dashboard/manager` forever
  (`AppRoutes.AdminUserLoops`);
- an authenticated session with no user object is shown the admin
  dashboard (`AppRoutes.NullUserSeesAdminDashboard`);
- no employee or manager user ever sees the admin dashboard
  (`AppRoutes.AdminDashboardNeverShown`).

Some behaviours of the code worth knowing:

- A user with a refused role is redirected to their own role's legacy
  dashboard path (`/employee-dashboard` or `/manager-dashboard`), not to
  `/forbidden`.
- The guard attaches the requested location (`from`) to the login
  redirect, but no destination function reads it. After signing in, the
  user lands on their dashboard, not on the page they asked for
  (`NavigationFacts.RedirectMemoryUnused`).
- The store does not decode or check the token. It stores the response's
  `token` and `user` as given.
- `logout` is local only: no request goes to the backend, and `isLoading`
  is left as it was.
- The token travels under the key `token`, on both sides.
- `/dashboard` itself is a route with no element of its own. It renders an
  empty outlet, not the not-found page.

## Model

| member | source | states |
|---|---|---|
| Roles.ParseRole | src/pages/AdminDashboard.tsx:44 | a role string parses to the role named by exactly that string, and every role name parses |
| JsText.TrimStart | src/components/LoginForm.tsx:22 | the result is a suffix of the input; what was dropped is all whitespace; the result does not start with whitespace |
| JsText.TrimEnd | src/components/LoginForm.tsx:22 | the result is a prefix of the input; what was dropped is all whitespace; the result does not end with whitespace |
| JsText.TrimStartOfSpaces | src/components/LoginForm.tsx:22 | trimming a whitespace-only string leaves nothing |
| JsText.BlankIffAllSpace | src/components/LoginForm.tsx:22 | `!s.trim()` holds exactly when every character of s is whitespace |
| JsText.Or | src/store/authStore.ts:50 | `a \|\| b` on a string is a when a is a non-empty string, else b |
| JsText.Utf16Length | src/components/RegisterForm.tsx:52 | a string's `length` lies between its code-point count and twice that, and is 0 only for the empty string |
| JsText.Lower | src/services/mockAuth.ts:48 | lower-casing keeps the length and maps each character on its own |
| JsText.DecimalString | src/services/mockAuth.ts:72 | `String(n)` is non-empty, has one digit exactly for n < 10, and ends in the digit of n mod 10 |
| JsText.DecimalStringInjective | src/services/mockAuth.ts:72 | different numbers have different decimal strings |
| JsText.Latin1Concat | src/services/mockAuth.ts:36 | a concatenation is within `btoa`'s one-byte range exactly when both parts are |
| JsText.DecimalStringLatin1 | src/services/mockAuth.ts:31 | the decimal string of a number is always within `btoa`'s range |
| JsonText.EscapeChar | src/services/mockAuth.ts:36 | a character's escaped form is 1 to 6 characters and within `btoa`'s range exactly when the character is |
| JsonText.Quote | src/services/mockAuth.ts:36 | a stringified string is quoted and within `btoa`'s range exactly when the string is |
| JsonText.UnescapeEscape | src/services/mockAuth.ts:36 | reading an escaped string's text back gives the string |
| JsonText.UnquoteQuote | src/services/mockAuth.ts:36 | reading a stringified string back gives the string |
| JsonText.Stringify | src/services/mockAuth.ts:36 | a stringified object is braced and within `btoa`'s range exactly when every key and string value is |
| Base64.Encode | src/services/mockAuth.ts:36 | the encoding has four characters per three input characters, rounded up, and never a dot |
| Base64.Btoa | src/services/mockAuth.ts:36 | `btoa` succeeds exactly for one-byte strings, and its result has no dot and decodes back to the input |
| Base64.DecodeEncode | src/services/mockAuth.ts:36 | decoding the encoding of any one-byte string gives the string |
| AuthStore.BeginAttempt | src/store/authStore.ts:37 | starting an attempt sets loading, clears the error and keeps token, user and authentication |
| AuthStore.FinishAttempt | src/store/authStore.ts:49-64 | an ok response installs the body's token and user and authenticates; anything else keeps the identity and records the body message, the thrown message or the fallback |
| AuthStore.Login | src/store/authStore.ts:35-65 | a whole login never leaves the store loading; success authenticates with the body's token and user and no error; failure keeps identity and stores the message with fallback "Login failed"; it authenticates only on success or if already authenticated |
| AuthStore.Register | src/store/authStore.ts:67-97 | the same contract as login, with fallback "Registration failed" |
| AuthStore.Logout | src/store/authStore.ts:99-106 | logout clears token, user, authentication and error and leaves loading untouched |
| AuthStore.ClearError | src/store/authStore.ts:108-110 | clearError clears the error and changes nothing else |
| AuthStore.LogoutAndClearErrorIdempotent | src/store/authStore.ts:99-110 | logout and clearError are idempotent |
| AuthStore.Partialize | src/store/authStore.ts:112-114 | the persisted record, rehydrated, is the session with loading and error reset: exactly token, user and authentication survive |
| AuthStore.PersistRoundTrip | src/store/authStore.ts:114 | persisting a rehydrated record gives the record back |
| AuthStore.AttemptEndsClean | src/store/authStore.ts:35-65 | a login ends either authenticated without error, or with an error and the previous identity |
| AuthStore.FailedAttemptStaysLoggedOut | src/store/authStore.ts:59-64 | a failed attempt from a logged-out session stays logged out |
| ProtectedRoute.DenialTarget | src/components/ProtectedRoute.tsx:39 | the denial target is `/employee-dashboard` exactly for employees and `/manager-dashboard` otherwise |
| ProtectedRoute.Decide | src/components/ProtectedRoute.tsx:32-44 | a login redirect carrying the location exactly when unauthenticated; a role redirect exactly when authenticated with a user whose role is outside the allowed set; otherwise render, including with no allowed set or no user |
| ProtectedRoute.DenialNeverForbiddenOrLogin | src/components/ProtectedRoute.tsx:38-41 | the role redirect never goes to `/forbidden` or `/login` |
| ProtectedRoute.ToastFor | src/components/ProtectedRoute.tsx:16-30 | the authentication toast fires exactly with the login redirect and the access toast exactly with the role redirect, for every location |
| AppRoutes.LookupFrom | src/App.tsx:25-59 | the lookup result is the element of the first matching entry at or after i, or the catch-all when none matches |
| AppRoutes.FirstMatch | src/App.tsx:25-59 | a path whose first matching entry is j looks up that entry's element |
| AppRoutes.NoMatch | src/App.tsx:59 | a path matching no entry reaches the catch-all page |
| AppRoutes.LookupFromTable | src/App.tsx:25-59 | every lookup is either the catch-all or the element of an entry whose path is the one looked up |
| AppRoutes.DashboardPath | src/App.tsx:32-47 | each role's `/dashboard/...` path is guarded by exactly that role and shows that role's dashboard |
| AppRoutes.LegacyPath | src/App.tsx:51-53 | each legacy dashboard path is an alias of the matching `/dashboard/...` path, which is not itself an alias |
| AppRoutes.PublicRoutes | src/App.tsx:27-56 | `/`, `/login`, `/register` and `/forbidden` are unguarded pages, and `/dashboard` itself is an unguarded empty outlet |
| AppRoutes.PublicShowsNoDashboard | src/App.tsx:27-56 | no unguarded route shows one of the three dashboards |
| AppRoutes.GuardedOnlyDashboards | src/App.tsx:32-47 | a path is guarded exactly when it is one of the three `/dashboard/...` paths |
| AppRoutes.AliasTargetsAreDashboards | src/App.tsx:51-53 | every alias targets a `/dashboard/...` path |
| AppRoutes.FollowAlias | src/App.tsx:51-53 | following at most one alias reaches a path that is not an alias |
| AppRoutes.Resolve | src/App.tsx:25-59 | a resolved navigation takes no more redirects than the fuel allows |
| AppRoutes.DashboardPathShowsOwnPage | src/App.tsx:32-47 | every `/dashboard/...` path is guarded, and it shows a role's dashboard exactly when it is that role's path |
| AppRoutes.StepOwnDashboard | src/App.tsx:33-47 | a signed-in user on their own role's dashboard path is shown that dashboard |
| AppRoutes.StepOtherDashboard | src/components/ProtectedRoute.tsx:38-41 | a signed-in user on another role's dashboard path is redirected to their own denial target |
| AppRoutes.StepLegacy | src/App.tsx:51-53 | a legacy path redirects to its dashboard path whoever is signed in |
| AppRoutes.DenialTargetIsOwnLegacy | src/components/ProtectedRoute.tsx:39 | for employees and managers the denial target is their own legacy dashboard path |
| AppRoutes.OwnDashboardReached | src/App.tsx:33-53 | an employee or manager on any dashboard path lands on their own dashboard within two redirects, and within three from a legacy path |
| AppRoutes.UnauthenticatedDashboardGoesToLogin | src/components/ProtectedRoute.tsx:33-35 | without authentication every dashboard path lands on the login page in one redirect, remembering the path |
| AppRoutes.ShowAdminNeedsAdmin | src/App.tsx:43-47 | the admin dashboard is shown only to an authenticated session whose user is missing or is an admin |
| AppRoutes.AdminDashboardNeverShown | src/App.tsx:43-47 | no navigation of a logged-out session or an employee or manager user ends on the admin dashboard |
| AppRoutes.NullUserSeesAdminDashboard | src/components/ProtectedRoute.tsx:38-44 | an authenticated session without a user is shown the admin dashboard at once |
| AppRoutes.AdminUserLoops | src/components/ProtectedRoute.tsx:39 | a user with role admin never lands anywhere from the employee dashboard path, whatever the fuel |
| AppRoutes.ManagerAliasLoops | src/App.tsx:52 | a user with role admin never lands from the manager paths, whatever the fuel |
| EmailPattern.AnchorsIffRegex | src/components/LoginForm.tsx:25 | the position-anchored check holds exactly when the unanchored regex matches somewhere |
| EmailPattern.TestEmail | src/components/LoginForm.tsx:25 | the scanning method answers exactly the regex test |
| EmailPattern.EmailIsNotBlank | src/components/LoginForm.tsx:22-27 | a string the regex accepts is not blank |
| EmailPattern.EmailFieldError | src/components/LoginForm.tsx:22-28 | "Email is required" exactly for a blank email; "Email is invalid" exactly for a non-blank one the regex refuses; no message exactly when the regex accepts |
| LoginForm.ValidateForm | src/components/LoginForm.tsx:18-37 | the email message as above, "Password is required" exactly for an empty password, and valid exactly when there are no messages |
| LoginForm.Destination | src/components/LoginForm.tsx:49-66 | after login an authenticated employee goes to `/employee-dashboard`, a manager to `/manager-dashboard`, and there is no navigation otherwise |
| LoginForm.HandleSubmit | src/components/LoginForm.tsx:39-70 | the error is cleared first; login is requested with the typed credentials exactly when the form has no messages; navigation happens only for an authenticated session with a user |
| RegisterForm.PasswordError | src/components/RegisterForm.tsx:49-55 | "Password is required" exactly for an empty password, the length message exactly for 1 to 5 code units, never both |
| RegisterForm.ValidateForm | src/components/RegisterForm.tsx:27-64 | the name message exactly for a blank name; email and password as above; the mismatch message exactly when password and confirmation differ, independently of the others; valid exactly when there are no messages |
| RegisterForm.ValidFormShape | src/components/RegisterForm.tsx:27-64 | a valid form has a non-blank name, an email the regex accepts, a password of at least 6 units and a matching confirmation |
| RegisterForm.SelectableAreUserRoles | src/components/RegisterForm.tsx:157-169 | the role choice offers exactly the non-admin roles |
| RegisterForm.HandleSubmit | src/components/RegisterForm.tsx:66-93 | the error is cleared first; registration is requested with the typed fields and a selectable role exactly when the form has no messages; afterwards the form navigates by the same role choice as after login |
| IndexPage.NavigateToDashboard | src/pages/Index.tsx:13-23 | `/login` exactly unless authenticated with a user; otherwise the employee or manager legacy dashboard by role |
| IndexPage.ButtonLabel | src/pages/Index.tsx:42-44 | "Go to Dashboard" exactly when authenticated, else "Get Started" |
| Navbar.DashboardLink | src/components/Navbar.tsx:38-45 | the link exists exactly when there is a user; it targets `/manager-dashboard` exactly for managers |
| Navbar.RightPanel | src/components/Navbar.tsx:49-68 | the user panel, with the user's name and role, exactly when there is a user; else the sign-in links |
| Navbar.SignOut | src/components/Navbar.tsx:12-14 | signing out is the store logout followed by navigation to `/login`, after which the sign-in links show |
| ForbiddenPage.GoToDashboard | src/pages/Forbidden.tsx:12-24 | `/login` exactly with no user; `/dashboard/employee` or `/dashboard/manager` by role; `/` for any other role |
| NavigationFacts.DestinationsAgree | src/components/LoginForm.tsx:51-65 | for an employee or manager, every destination function leads, once aliases are resolved, to that role's own dashboard |
| NavigationFacts.AdminDestinationsDisagree | src/components/Navbar.tsx:40 | for an admin user, the sign-in forms and the index page do not navigate; the navbar link loops; the forbidden page goes home |
| NavigationFacts.RedirectMemoryUnused | src/components/ProtectedRoute.tsx:34 | a logged-out request for a dashboard redirects to login remembering the path, but the post-login destination depends only on the user's role |
| NavigationFacts.SignInGoesToOwnLegacy | src/components/LoginForm.tsx:49-66 | a valid sign-in that returns an employee or manager navigates to that role's legacy dashboard path |
| NavigationFacts.SessionWithoutUser | src/store/authStore.ts:53-58 | an ok login response without a user authenticates the session with no user, and then no form navigates |
| NavigationFacts.SignOutEndsOnLogin | src/components/Navbar.tsx:12-14 | after signing out, every dashboard path lands on the login page |
| MockAuth.Payload | src/services/mockAuth.ts:26-32 | the payload carries the account's id, name, email and role, and expires 86400 seconds after the current second |
| MockAuth.PayloadJson | src/services/mockAuth.ts:36 | the payload's JSON text is within `btoa`'s range exactly when the id, name and email are |
| MockAuth.GenerateToken | src/services/mockAuth.ts:25-37 | a token exists exactly when the id, name and email are within `btoa`'s range; it has no dot and decodes back to the payload's JSON text |
| MockAuth.FirstDot | src/services/mockAuth.ts:91 | the first dot's index, absent exactly when there is no dot |
| MockAuth.UpToDot | src/services/mockAuth.ts:91 | the longest dot-free prefix: it ends at the text's end or at a dot |
| MockAuth.PayloadPart | src/services/mockAuth.ts:91 | the decoder's payload part is absent exactly when the token has no dot |
| MockAuth.PayloadPartOfJwt | src/services/mockAuth.ts:91 | for a header, payload and signature joined by dots, the payload part is the payload |
| MockAuth.DecodedExp | src/services/mockAuth.ts:91 | a token without a dot never decodes; otherwise its expiry is what the payload part reads as |
| MockAuth.FindByEmail | src/services/mockAuth.ts:48 | the index found is the first account whose email matches case-insensitively, and none is found exactly when no account matches |
| MockAuth.Login | src/services/mockAuth.ts:43-59 | "Invalid email or password" is thrown exactly when the first email match is missing or has another password; otherwise the result is that account's token, or the encoding error exactly when there is no token |
| MockAuth.Register | src/services/mockAuth.ts:61-86 | the duplicate message exactly when an email matches, with the list unchanged; otherwise exactly one account with id `String(n + 1)` and the given fields is appended, and the result is its token or the encoding error |
| MockAuth.RetryAfterEncodingFailureIsRefused | src/services/mockAuth.ts:66-83 | after a registration whose token failed to encode, registering the same email again is refused as taken |
| MockAuth.ValidateToken | src/services/mockAuth.ts:88-96 | a token is valid exactly when it decodes and its expiry in milliseconds is strictly after now |
| MockAuth.GeneratedTokenNeverValidates | src/services/mockAuth.ts:36-96 | no token from `generateToken` validates, at any time and whatever the payload decoding gives |
| MockAuth.InitialValid | src/services/mockAuth.ts:7-22 | the seed users have sequential ids and distinct emails |
| MockAuth.RegisterPreservesValid | src/services/mockAuth.ts:66-83 | every registration outcome keeps ids sequential and emails case-insensitively distinct |
| MockAuth.AppendKeepsValid | src/services/mockAuth.ts:71-80 | appending the next-id account with an unused email keeps the list valid |
| MockAuth.IdsUnique | src/services/mockAuth.ts:72 | in a valid user list, ids are pairwise distinct |
| MockAuth.LoginIffCredentialsMatch | src/services/mockAuth.ts:48-53 | in a valid list, login is refused with "Invalid email or password" exactly when no account matches the email case-insensitively and has the password |
| Api.HandleResponse | src/services/api.ts:8-17 | an ok response returns the body unchanged; otherwise the error is the body's message when truthy, else the status text |
| Api.StoreMessageMatchesHelper | src/services/api.ts:12 | the store's failure message and the helper's use the same message-first rule |
| Api.GetHeaders | src/services/api.ts:20-33 | the content type is always JSON; the bearer header is present exactly when auth is required and the token is truthy, and carries that token |
| Api.RequiresAuth | src/services/api.ts:36-79 | exactly the two protected getters ask for auth |
| Api.RequestHeaders | src/services/api.ts:20-79 | login and register never send an Authorization header; the protected getters send one exactly when the store's token is truthy, and its value is `Bearer ` followed by that token; the content type is always JSON |
| Api.NoAuthorizationAfterLogout | src/services/api.ts:25-30 | after logout no request carries a bearer header |
| AdminDashboard.RoleIssue | src/pages/AdminDashboard.tsx:44-46 | the role is refused exactly when missing or not one of employee, manager, admin |
| AdminDashboard.SchemaIssuesPerField | src/pages/AdminDashboard.tsx:39-51 | per field: names shorter than 2 UTF-16 units, a present password shorter than 8 when the schema has one, a missing or unknown role, an empty date and a refused email each give exactly one issue, and a role issue says whether the role was missing |
| AdminDashboard.ParseForm | src/pages/AdminDashboard.tsx:39-51 | the form parses exactly when there are no issues; the parsed value meets every bound and copies the names, email, role, date, department, position, managed department and, where the schema has one, the password |
| AdminDashboard.EmptyPasswordRefused | src/pages/AdminDashboard.tsx:78 | the add form's default empty password is refused by the add schema |
| AdminDashboard.EditPrefill | src/pages/AdminDashboard.tsx:103-116 | the edit form copies name, email and role, takes the profile fields or `''`, and the date or today |
| AdminDashboard.EditSubmission | src/pages/AdminDashboard.tsx:176-186 | an update is sent exactly when a user is selected, for that user's id, with the form data and no password |
| AdminDashboard.DeleteRequest | src/pages/AdminDashboard.tsx:188-192 | a delete is sent exactly when a user is selected, with that user's id |
| AdminDashboard.ShownProfileFields | src/pages/AdminDashboard.tsx:356-392 | department and position show exactly for employee, managed department exactly for manager, never both |
| AdminDashboard.CountRole | src/pages/AdminDashboard.tsx:682 | the count is at most the length, zero exactly when nobody has the role, and the length exactly when everybody does |
| AdminDashboard.CountRoleAppend | src/pages/AdminDashboard.tsx:682 | the count over a concatenation is the sum of the counts |
| AdminDashboard.RoleIndicesSnoc | src/pages/AdminDashboard.tsx:682 | appending a user adds one position with the role exactly when the user has it |
| AdminDashboard.CountRoleIsIndexCount | src/pages/AdminDashboard.tsx:682 | the filter-and-length count equals the number of positions holding the role |
| AdminDashboard.UserStats | src/pages/AdminDashboard.tsx:673-692 | an absent list gives zeros; the total is the list length; the employee and manager counts are the numbers of positions with those roles |
| AdminDashboard.DistinctRolesCountedOnce | src/pages/AdminDashboard.tsx:682-692 | the counts of two different roles add up to at most the length |
| AdminDashboard.StatsBounded | src/pages/AdminDashboard.tsx:673-692 | employees plus managers never exceed the total |
| PyValues.SetDefault | employee-manager-backend/accounts/models.py:18-20 | `setdefault` adds the key with the value only when absent and keeps every other entry |
| AccountsModels.CreateUser | employee-manager-backend/accounts/models.py:7-15 | fails with the email error exactly for a missing or empty email; otherwise stores the normalised email, every given field, the model defaults for the rest, and a usable password exactly when one was given |
| AccountsModels.CreateSuperuser | employee-manager-backend/accounts/models.py:17-27 | staff, superuser and manager role are defaulted only when absent; a staff value not exactly True fails first, then a superuser value not exactly True; a created superuser is staff and superuser with the given or default role |
| AccountsModels.DefaultRoles | employee-manager-backend/accounts/models.py:20-39 | with no role given, a user is stored as employee and a superuser as manager |
| AccountsModels.RoleChoicesAndDefault | employee-manager-backend/accounts/models.py:30-39 | the role choices are exactly employee and manager, with employee as default |
| AccountsModels.FullName | employee-manager-backend/accounts/models.py:52-54 | the full name is the first name, one space, then the last name |
| AccountsModels.NewEmployeeProfile | employee-manager-backend/accounts/models.py:60 | a new employee profile keeps the given fields and has leave balance 24 unless one is given |
| AccountsSerializers.OutputFields | employee-manager-backend/accounts/serializers.py:24-29 | output carries every declared field except the write-only password |
| AccountsSerializers.InputFields | employee-manager-backend/accounts/serializers.py:24-29 | input accepts every declared field except the read-only id and join date |
| AccountsSerializers.UserKeywords | employee-manager-backend/accounts/serializers.py:38-45 | the arguments to `create_user` never hold a profile key and carry every other validated field |
| AccountsSerializers.ChooseProfile | employee-manager-backend/accounts/serializers.py:47-51 | an employee profile exactly for the employee role with non-empty employee data, a manager profile exactly for the manager role with non-empty manager data, and each made from that role's own data |
| AccountsSerializers.Create | employee-manager-backend/accounts/serializers.py:31-53 | well-formed validated data, which always has a non-empty email, always creates a user with the normalised email; an employee profile is made exactly for the employee role (the default) with non-empty employee data; a manager profile exactly for the manager role with non-empty manager data; other profile data is dropped |
| AccountsSerializers.AbsentRoleIsEmployee | employee-manager-backend/accounts/serializers.py:32 | without a role the user is stored as an employee and gets no manager profile |
| AccountsAdmin.GetInlineInstances | employee-manager-backend/accounts/admin.py:31-41 | no inline on the add page; exactly the employee inline for role employee, exactly the manager inline for role manager, none otherwise; never more than one |
| AccountsViews.RegisterPost | employee-manager-backend/accounts/views.py:12-27 | 400 with the field errors exactly for invalid data; 201 with the minted token and serialized user exactly for valid data; no other status |
| AccountsViews.LoginPost | employee-manager-backend/accounts/views.py:32-57 | 400 exactly for invalid input; 401 with "Invalid email or password" exactly when authentication fails; 200 with token and user exactly when it succeeds |
| AccountsViews.LogoutPost | employee-manager-backend/accounts/views.py:59-66 | 200 with the success message exactly for an authenticated request; otherwise 401 or 403 with only a `detail` key, holding the missing-credentials text or the authenticator's rejection |
| AccountsViews.ErrorKeysAreFields | employee-manager-backend/accounts/views.py:27 | no serializer error key is `token`, `user` or `message` |
| AccountsViews.RegisterBodyKeys | employee-manager-backend/accounts/views.py:22-27 | the register body has the keys token and user exactly on 201, and never a `message` key |
| AccountsViews.LoginBodyKeys | employee-manager-backend/accounts/views.py:47-57 | the login body has the keys token and user exactly on 200, and never a `message` key |
| ClientServer.ToOutcome | src/store/authStore.ts:47-55 | every view response reaches the store as a parsed body; ok exactly for a 2xx status; a token exactly for a token body; a message only when the body has a `message` key |
| ClientServer.RegisterRefusalShowsFallback | src/store/authStore.ts:81-82 | a registration the backend refuses shows "Registration failed" and keeps the identity |
| ClientServer.LoginRefusalShowsFallback | src/store/authStore.ts:49-50 | a login refused for bad input or bad credentials shows "Login failed", not the backend's text |
| ClientServer.LoginAcceptanceAuthenticates | employee-manager-backend/accounts/views.py:40-51 | an accepted login authenticates the store with the minted token and the decoded user |
| ClientServer.RegisterAcceptanceAuthenticates | employee-manager-backend/accounts/views.py:14-26 | an accepted registration authenticates the store with the minted token and the decoded user and no error |

## Left out

- Markup, styling, animations and toast rendering are left out; only which toast condition fires is modelled. `AuthLayout`, the register page and the employee and manager dashboards are pure presentation.
- `fetch`, JSON parsing and `localStorage` are not modelled. A response is an abstract outcome: ok with a body, not ok with a body, or a thrown value.
- The persistence middleware is not modelled. Rehydration is taken as the persisted fields merged over the initial state.
- Asynchronous timing is left out: interleavings, the mock service's 800 ms delay, and react-query caching and refetching.
- MockAuth.ValidateToken: the JWT decoder's base64url decoding and `JSON.parse` of a payload part are a function parameter; only the split at dots is modelled. The clock `Date.now()` is a parameter, as it is for `GenerateToken`.
- MockAuth.GenerateToken: numbers are written as integers, so `JSON.stringify`'s exponent form for magnitudes of 1e21 and above is not modelled; a clock reading that large is far outside any date.
- JsonText.Quote: a Dafny string holds Unicode scalar values, so lone surrogates, which `JSON.stringify` writes as `\u` escapes, cannot occur.
- JsText.Lower: only ASCII letters are lowered; JavaScript's full Unicode `toLowerCase` is not modelled.
- AdminDashboard.SchemaIssuesPerField: zod's email check is a boolean parameter, and `date-fns` formatting of today's date is a string parameter of `EditPrefill`.
- The admin page's `getAllUsers`, `addUser`, `updateUser` and `deleteUser` calls are not defined in the API service. The model stops at the request each handler would send.
- Route matching is exact string equality. react-router's case-insensitive and trailing-slash matching is not modelled.
- AppRoutes.Resolve: navigation is followed for at most `fuel` redirects. A landing needing more, like the admin user's endless loop, shows as `Unresolved`.
- The `/forgot-password` link has no route and is left out.
- The client posts to `/api/login` and `/api/register`. The backend's URL routing is not part of this model.
- AccountsModels.CreateUser: `normalize_email` is a function parameter and password hashing is reduced to "usable or not". Keyword arguments must name model fields; the model constructor's error for unknown keywords is not modelled.
- The save to the database and `date_joined`'s clock default are left out.
- The backend's `authenticate`, token minting, the serialized user and serializer validation are parameters or abstract outcomes. Field errors are flattened to lists of strings.
- AccountsViews.LogoutPost: the settings file is not part of this model, so whether the configured authenticator sends a challenge (401) or not (403) is a parameter; the extra keys simplejwt adds to a rejected token's body are not modelled.
- The `except` branch of the logout view cannot be reached and is left out. So is the user-detail view, which is outside the modelled endpoints.
- Message values that are truthy but not strings are out of scope. The body's `message` is either a string or absent.
- The admin site's list, filter, fieldset and search configuration is declarative and left out; only the inline choice is modelled.
