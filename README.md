# Project_Folder client core in Dafny

This is a verified model of the logic in the React client of Project_Folder, a file-sharing application with administrators and regular users. It covers two pieces of sequential client logic, plus the smaller page handlers that use them.

**The session lifecycle.** The browser keeps four session keys in `localStorage`: `accessToken`, `refreshToken`, `userRole` and `userId`.
- Every request through the `api` gateway carries the stored access token as a bearer credential.
- A response with status 493 ("access token expired") leads to at most one token refresh and one replay of the request.
- A missing or rejected refresh token ends in `handleLogout`. It makes a best-effort revoke call, removes the four keys and moves to `/login`.
- The sign-in page writes the four keys and routes by role.
- The user dashboard shows only the active folders, and clears the session on a 401.

**The bulk user import of the admin dashboard.**
- A file-type gate accepts only the two spreadsheet MIME types.
- Every parsed row is normalised: each cell is trimmed, the email is lower-cased and the role is forced to `user`.
- Each user is checked by `validateUserData`, and the violations of every row are collected in row order.
- The import is all or nothing: the users are sent in one request only when no row has a violation. Progress moves through the milestones 10, 30, 50, 70 and 100, or falls back to 0.

**The smaller handlers.**
- The admin dashboard's folder list: fetch, create, delete, file selection and image upload.
- The two-step password reset.
- The user table's fetch, delete, edit, update and form changes.

**How the model is built.**
- **Browser state.** It is a class, `Api.Browser`, with three fields: the store (`map<string,string>`), the current route, and a log of every call that left the client. The log is how the model observes the network.
- **Server answers.** They are an input to each handler: `Http.Exchange` gives the answers to the request itself, to the refresh and to the replay.
- **The gateway.** `Api.Dispatch` is the pure specification of one request through the gateway, and `Api.Browser.Send` is the step-by-step implementation proved against it. Every page handler is a method on a class holding that page's React state. Its contract states the page's new state and the browser's new state in terms of `Dispatch`.
- **Spreadsheet reading.** `FileReader` and `XLSX` are an input (`SheetRead`) that says whether the read threw, never finished, or gave rows.
- **Encryption.** The AES step is a function parameter.

Three behaviours of the code are worth stating outright, because the model keeps them as written:
- The code has no error case for an unknown role: it routes every role other than `admin` to `/user` (`LoginPage.RouteForRole`).
- Page components change global state themselves, outside `handleLogout`. On a 401, `UserDashboard` removes the four keys without navigating, and `UserList` navigates to `/login` without clearing anything.
- A failed sign-in writes no key itself. The store may still have been cleared by a logout that the gateway cascaded into.

## Model

| member | source | states |
|---|---|---|
| Api.AttachBearer | client/src/utils/api.js:13-18 | With a non-empty access token stored, the request carries `Bearer <token>` and every other header, the verb, the URL and the body are unchanged. Without one, the request is unchanged. |
| Api.RevokeCalls | client/src/utils/api.js:56-60 | The revoke call is made only when a user id is stored. It is at most one call, a POST sent through the `api` instance to the logout URL. Its body is exactly `{userId}` with the stored id, and it carries the stored access token as its bearer. |
| Api.ClearSession | client/src/utils/api.js:65-68 | Afterwards the four session keys are absent, and every other key keeps its value. |
| Api.ClearSessionIdempotent | client/src/utils/api.js:65-68 | Clearing the session twice leaves the store as clearing it once. |
| Api.DispatchContract | client/src/utils/api.js:12-51 | The first call carries the stored bearer. A non-493 outcome is returned unchanged, with the store untouched and no other call. After a 493 and a successful refresh, only `accessToken` changes and the last call is a single replay with the new bearer; its outcome is returned. A failed refresh logs out and returns the refresh error. A 493 with no refresh token logs out and returns the original error. A logout clears exactly the session keys. After the first call, the only call through the instance is the revoke call. |
| Api.RetryBound | client/src/utils/api.js:29-50 | One request makes exactly one refresh call when its first answer is 493 and a refresh token is stored, and none otherwise. It makes exactly one revoke call when it logs out with a user id stored, and none otherwise. It makes at most two calls to its own URL, and two exactly when there was a 493, a refresh token, and a successful refresh. |
| Api.RefreshCall | client/src/utils/api.js:33-35 | The refresh is a POST to the refresh URL made with bare `axios`, so no interceptor runs on it and it carries no `Authorization` header. Its body is exactly `{refreshToken}`. |
| Api.ReplayCall | client/src/utils/api.js:39-40 | The replay goes through bare `axios` with the new token as its bearer. Its verb, URL, body and every other header are those the request was sent with. |
| Api.RevokeCount | client/src/utils/api.js:56-60 | The revoke calls add one call to the logout URL when a user id is stored, and none to any other URL. |
| Api.DispatchKeepsSessionConsistent | client/src/utils/api.js:29-50 | If the four session keys were all present or all absent before a request, they still are afterwards. |
| Api.CountToConcat | client/src/utils/api.js:29-50 | The number of calls to a URL in a concatenated log is the sum of the counts of the two parts. |
| Api.Browser.SetItem | client/src/utils/api.js:37 | `localStorage.setItem` writes that key and changes nothing else. |
| Api.Browser.RemoveItem | client/src/utils/api.js:65 | `localStorage.removeItem` deletes that key and changes nothing else. |
| Api.Browser.Navigate | client/src/utils/api.js:69 | Navigation changes only the route. |
| Api.Browser.Logout | client/src/utils/api.js:54-71 | `handleLogout`: the log grows by exactly the revoke calls, the store becomes `ClearSession` of the old store, and the route is `/login`. This holds for any answer to the revoke call other than 493 (see "## Left out"). |
| Api.Browser.RemoveSessionKeys | client/src/utils/api.js:65-68 | The four removals leave the store as `ClearSession` of the old store, and the route and log unchanged. |
| Api.Dispatch | client/src/utils/api.js:12-51 | The specification of one request through the gateway: the bearer is attached, a non-493 answer passes through, and a 493 leads to the refresh and replay or to the logout cascade. What it guarantees is stated by `Api.DispatchContract`, `Api.RetryBound` and `Api.DispatchKeepsSessionConsistent`. |
| Api.IsExpired | client/src/utils/api.js:29 | A failure whose response status is 493. A failure without a response never counts as expired. |
| Api.Has | client/src/utils/api.js:14-15 | `getItem(key)` tested for truthiness: an absent key and an empty value both count as missing. |
| Http.ApiRequest | client/src/utils/api.js:3-9 | A request made through the `api` instance carries the JSON content type and no `Authorization` header until the interceptor adds one. |
| Http.HttpError.MsgOr | client/src/components/UserList.jsx:29 | `err.response?.data?.msg \|\| fallback`: the server's `msg` when there is a response and it is non-empty, otherwise the fallback. |
| Http.HttpError.MessageOr | client/src/components/AdminDashboard.jsx:37 | `err.response?.data?.message \|\| fallback`, read the same way from the `message` field. |
| Api.Browser.Send | client/src/utils/api.js:12-51 | The interceptor chain, step by step, ends in exactly the store, log, result and route that `Dispatch` specifies. |
| Entities.FolderListRequest | client/src/components/UserDashboard.jsx:22 | The folder list request is a GET of `/api/folder` with no body. |
| LoginPage.LoginRequest | client/src/pages/Login.jsx:30-36 | The sign-in request carries exactly the email and the encrypted password, never the raw password. |
| LoginPage.StoreSession | client/src/pages/Login.jsx:39-42 | The four `setItem` calls in their order. What they leave is stated by `LoginPage.StoreSessionWrites`. |
| LoginPage.StoreSessionWrites | client/src/pages/Login.jsx:39-42 | After sign-in, the four keys hold the answer's tokens, role and id, and the session is consistent. Every other key is unchanged. |
| LoginPage.LogoutUndoesLogin | client/src/pages/Login.jsx:39-42 | A logout after a sign-in leaves the store as a logout before it would have, so sign-in writes nothing but the session keys. |
| LoginPage.RouteForRole | client/src/pages/Login.jsx:47-51 | The route is `/admin` exactly when the role is `admin`, and `/user` for every other role. |
| LoginPage.Login.constructor | client/src/pages/Login.jsx:12-14 | The form starts empty, with no error and not loading. |
| LoginPage.Login.OnChange | client/src/pages/Login.jsx:18 | The named field takes the typed value. The other credential is unchanged. |
| LoginPage.Login.OnSubmit | client/src/pages/Login.jsx:24-57 | The log holds exactly one gateway request's calls. On success, the four keys are written over what the gateway left, the route follows the role, and the error is empty. On failure, no key is written, the error is the server's `msg` or "Login failed", and the route moves only on a gateway logout. `loading` is on during the call and off afterwards. |
| ForgotPasswordPage.ResetGuard | client/src/pages/ForgotPassword.jsx:43-51 | The mismatch check comes first, then length below 8. The request may go out exactly when the passwords match and have at least 8 characters. |
| ForgotPasswordPage.PasswordLengthBoundary | client/src/pages/ForgotPassword.jsx:48-51 | Seven characters are refused and eight are accepted. |
| ForgotPasswordPage.OtpExpired | client/src/pages/ForgotPassword.jsx:77 | The failure has a response whose `msg` is present and includes `expired`. |
| ForgotPasswordPage.OtpExpiredIff | client/src/pages/ForgotPassword.jsx:77-79 | The page returns to the email step exactly when the server's `msg` contains `expired` at some position. |
| ForgotPasswordPage.OtpRequest | client/src/pages/ForgotPassword.jsx:30 | A POST to the forgot-password URL whose body is exactly the email. |
| ForgotPasswordPage.ResetRequest | client/src/pages/ForgotPassword.jsx:59-66 | The reset request is a POST to the reset URL whose body has exactly the fields email, OTP and new password: the email and OTP as typed, and the new password only in encrypted form. |
| ForgotPasswordPage.ForgotPassword.constructor | client/src/pages/ForgotPassword.jsx:10-17 | Every field starts empty, on the email step, and not loading. |
| ForgotPasswordPage.ForgotPassword.SendResetOtp | client/src/pages/ForgotPassword.jsx:23-39 | One gateway request is made. On success, the OTP step is shown with the server's message. On failure, the step is unchanged and the error is the `msg` or the fallback. `loading` covers the call and ends off. The form fields are unchanged. |
| ForgotPasswordPage.ForgotPassword.ShowOtpOutcome | client/src/pages/ForgotPassword.jsx:31-34 | How the answer to the OTP request is shown on the page. |
| ForgotPasswordPage.ForgotPassword.ResetPassword | client/src/pages/ForgotPassword.jsx:41-83 | A failed guard sets only its error: no request, and `loading`, `message`, the step and the scheduled navigation are unchanged. Otherwise it behaves as `SubmitReset`. |
| ForgotPasswordPage.ForgotPassword.SubmitReset | client/src/pages/ForgotPassword.jsx:53-82 | One gateway request carries the encrypted password. On success, the server's message is shown and `/login` is scheduled. On failure, the `msg` or the fallback is shown, and the page goes back to the email step exactly when the OTP expired. `loading` covers the call and ends off. |
| ForgotPasswordPage.ForgotPassword.ShowResetOutcome | client/src/pages/ForgotPassword.jsx:68-79 | How the answer to the reset request is shown on the page. |
| UserDashboardPage.IsActive | client/src/components/UserDashboard.jsx:27 | A folder is active when it is not disabled and has at least one image. An absent `images` field is an empty list. |
| UserDashboardPage.ActiveFolders | client/src/components/UserDashboard.jsx:25-28 | A folder is shown exactly when it is among the server's folders, is not disabled, and has at least one image. |
| UserDashboardPage.NoFoldersIff | client/src/components/UserDashboard.jsx:25-28 | No folder is shown exactly when no server folder is active. |
| UserDashboardPage.ActiveFoldersKeepOrder | client/src/components/UserDashboard.jsx:25-28 | The shown folders keep the server's order: the filter distributes over concatenation. |
| UserDashboardPage.ActiveFoldersStable | client/src/components/UserDashboard.jsx:25-28 | Filtering the shown list again changes nothing. |
| UserDashboardPage.UserDashboard.constructor | client/src/components/UserDashboard.jsx:6-8 | The page starts loading, with no folders and no error. |
| UserDashboardPage.UserDashboard.FetchFolders | client/src/components/UserDashboard.jsx:11-49 | With no token, an error is shown and nothing is sent. Otherwise one gateway request is made. On success, the active folders are shown. A 401 gives the authentication error and removes the four keys. Any other failure shows the `msg` or the fallback with the store as the gateway left it. `loading` ends off on every path. |
| UserListPage.RemoveUser | client/src/components/UserList.jsx:47 | Exactly the users with another id remain. |
| UserListPage.FetchRequest | client/src/components/UserList.jsx:23 | A GET of `/api/users` with no body. |
| UserListPage.DeleteRequest | client/src/components/UserList.jsx:44 | A DELETE of `/api/users/<id>` with no body. |
| UserListPage.UpdateRequest | client/src/components/UserList.jsx:77 | A PUT to `/api/users/<id>` whose body has exactly the form's fields, each with the form's value. |
| UserListPage.EditForm | client/src/components/UserList.jsx:67-71 | The form `handleEdit` fills from a user. `UserListPage.EditFormRoundTrip` states what it holds. |
| UserListPage.ReplaceUser | client/src/components/UserList.jsx:78-80 | The list keeps its length. Every user with that id becomes the server's record, and every other user stays in place. |
| UserListPage.RemoveUserIdempotent | client/src/components/UserList.jsx:47 | Deleting twice is deleting once. |
| UserListPage.RemoveAbsentUser | client/src/components/UserList.jsx:47 | Deleting an id that no user has leaves the list unchanged. |
| UserListPage.ReplaceAbsentUser | client/src/components/UserList.jsx:78-80 | Updating an id that no user has leaves the list unchanged. |
| UserListPage.ReplaceThenRemove | client/src/components/UserList.jsx:78-80 | An update that keeps the id touches no other user: deleting the id afterwards gives the same list as deleting it before the update. |
| UserListPage.ReplaceUserIdempotent | client/src/components/UserList.jsx:78-80 | Applying the same update twice is applying it once. |
| UserListPage.EditFormRoundTrip | client/src/components/UserList.jsx:67-71 | The edit form holds exactly username, email and role, and together with the id they give back the user. |
| UserListPage.UserList.constructor | client/src/components/UserList.jsx:7-15 | The page starts loading, with no users, no error and not in edit mode. The form has three empty fields. |
| UserListPage.UserList.FetchUsers | client/src/components/UserList.jsx:21-36 | On success, the server's list is shown and the error cleared. On failure, the `msg` or the fallback is shown, and a 401 moves to `/login`. `loading` ends off either way. |
| UserListPage.UserList.HandleDelete | client/src/components/UserList.jsx:38-63 | A declined confirmation changes nothing and sends nothing. "User removed" removes exactly the users with that id and clears the error. Any other answer keeps the list and says the delete failed. A 403 shows the permission message in place of the server's message. A 401 moves to `/login`. |
| UserListPage.UserList.HandleEdit | client/src/components/UserList.jsx:65-73 | Edit mode for the user's id, the form filled from the user, and the error cleared. |
| UserListPage.UserList.HandleUpdate | client/src/components/UserList.jsx:75-91 | The form goes out as it stands. On success, the server's record replaces every user with that id, edit mode ends and the error is cleared. On failure, the list and edit mode stay, the `msg` or the fallback is shown, and a 401 moves to `/login`. |
| UserListPage.UserList.HandleChange | client/src/components/UserList.jsx:93-98 | Only the named field of the form changes. |
| ListOps.Filter | client/src/components/UserList.jsx:47 | An element is kept exactly when it is in the list and passes the test, and the result is never longer than the list. |
| ListOps.FilterConcat | client/src/components/AdminDashboard.jsx:187 | Filtering distributes over concatenation, so order is kept. |
| ListOps.FilterKeepsAll | client/src/components/AdminDashboard.jsx:187 | A list whose elements all pass the test is returned unchanged. |
| ListOps.FilterIdempotent | client/src/components/AdminDashboard.jsx:187 | Filtering twice is filtering once. |
| Text.Trim | client/src/components/AdminDashboard.jsx:289 | `trim()` leaves no white space at either end and never lengthens the string. |
| Text.TrimIsSlice | client/src/components/AdminDashboard.jsx:289 | `trim()` keeps a contiguous slice of the string, and everything it drops on either side is white space. |
| Text.TrimStartSlice | client/src/components/AdminDashboard.jsx:289 | Trimming the start keeps a suffix and drops only white space. |
| Text.TrimEndSlice | client/src/components/AdminDashboard.jsx:289 | Trimming the end keeps a prefix and drops only white space. |
| Text.TrimOfTrimmed | client/src/components/AdminDashboard.jsx:289 | A string with no white space at either end trims to itself. |
| Text.TrimIdempotent | client/src/components/AdminDashboard.jsx:289 | Trimming twice is trimming once. |
| Text.TrimFramed | client/src/components/AdminDashboard.jsx:289 | A trimmed, non-empty core framed by white space trims to that core. |
| Text.ToLower | client/src/components/AdminDashboard.jsx:290-292 | The same length, no upper-case ASCII letter left, and each changed character is an upper-case ASCII letter turned into its lower-case partner. |
| Text.ToLowerKeepsTrimmed | client/src/components/AdminDashboard.jsx:290-292 | Lower-casing a trimmed string keeps it trimmed. |
| Text.ToLowerIdempotent | client/src/components/AdminDashboard.jsx:290-292 | Lower-casing twice is lower-casing once. |
| Text.ContainsIff | client/src/pages/ForgotPassword.jsx:77 | `includes` holds exactly when the substring occurs at some position. |
| Text.NatToString | client/src/components/AdminDashboard.jsx:214 | The row number renders as at least one decimal digit, with a leading zero only for zero. |
| Text.NatToStringRoundTrip | client/src/components/AdminDashboard.jsx:214 | Reading the rendered digits back gives the number. |
| Text.NatToStringInjective | client/src/components/AdminDashboard.jsx:214 | Different row numbers render differently. |
| BulkImport.Cell | client/src/components/AdminDashboard.jsx:289 | A cell is read as trimmed text, and a missing cell is the empty string. |
| BulkImport.ToRecord | client/src/components/AdminDashboard.jsx:288-296 | The JSON object sent for a candidate user, with its five fields. `BulkImport.RecordFields` and `BulkImport.NormaliseRowStable` state what it holds. |
| BulkImport.NormaliseRow | client/src/components/AdminDashboard.jsx:288-296 | Every field of the candidate user is trimmed, and the role is `user` whatever the row says. |
| BulkImport.NormalisedEmailIsLower | client/src/components/AdminDashboard.jsx:290-292 | The normalised email has no upper-case ASCII letter. |
| BulkImport.MissingCellsAreEmpty | client/src/components/AdminDashboard.jsx:289-294 | A missing username, email, password or phone cell becomes the empty string. |
| BulkImport.NormaliseRowStable | client/src/components/AdminDashboard.jsx:288-296 | Normalising the record of a normalised row gives the same user back. |
| BulkImport.IndexOf | client/src/components/AdminDashboard.jsx:219 | The first position of a character, or the length when it is absent. |
| BulkImport.MatchesEmailPattern | client/src/components/AdminDashboard.jsx:219 | `^[^\s@]+@[^\s@]+\.[^\s@]+$` as written: some `@` and some later `.` split the string into three non-empty runs, none of which holds white space or `@`. |
| BulkImport.ValidEmail | client/src/components/AdminDashboard.jsx:219 | The computable email test: no white space, exactly one `@` after a non-empty part, and a domain with a `.` that is neither its first nor its last character. `BulkImport.EmailPatternIff` proves it equal to the expression. |
| BulkImport.EmailPatternIff | client/src/components/AdminDashboard.jsx:219 | The computed email test accepts exactly the strings that `^[^\s@]+@[^\s@]+\.[^\s@]+$` matches. |
| BulkImport.MatchImpliesValid | client/src/components/AdminDashboard.jsx:219 | Every match of the expression passes the computed test. |
| BulkImport.ValidImpliesMatch | client/src/components/AdminDashboard.jsx:219 | Every string that passes the computed test matches the expression at the first `@` and any inner dot of the domain. |
| BulkImport.Violates | client/src/components/AdminDashboard.jsx:208-233 | The four guards of `validateUserData` as written, with JavaScript's falsy empty string spelled out. `BulkImport.RuleMeaning` states what each one accepts. |
| BulkImport.RowLabel | client/src/components/AdminDashboard.jsx:214 | `Row ${index + 1}: `, with the 1-based row number in decimal. |
| BulkImport.RuleText | client/src/components/AdminDashboard.jsx:213-232 | The four message texts exactly as the source writes them. |
| BulkImport.Message | client/src/components/AdminDashboard.jsx:213-232 | A row's label followed by the text of the rule it breaks. `BulkImport.LabelDeterminesRow` shows that the label identifies the row. |
| BulkImport.ValidateUserData | client/src/components/AdminDashboard.jsx:204-236 | At most four messages, and none exactly when the user passes all four checks. |
| BulkImport.ValidateUserDataMeaning | client/src/components/AdminDashboard.jsx:204-236 | A rule's message is present exactly when the user breaks that rule. Every message starts with `Row <index + 1>: `. Messages come in the order username, email, password, phone. |
| BulkImport.ValidateUserDataNothingElse | client/src/components/AdminDashboard.jsx:204-236 | Nothing else is collected for a row. Every message is the message of a check the user fails, and no message appears twice. |
| BulkImport.RuleMeaning | client/src/components/AdminDashboard.jsx:208-233 | The username must be 3 to 50 characters, the email must match the expression, the password must be at least 8 characters, and the phone must be non-empty. |
| BulkImport.ValidEmailExample | client/src/components/AdminDashboard.jsx:219 | `a@b.com` passes the email check. |
| BulkImport.InvalidEmailExample | client/src/components/AdminDashboard.jsx:219 | `not-an-email` fails the email check. |
| BulkImport.WellFormedRowPasses | client/src/components/AdminDashboard.jsx:204-236 | A well-formed user produces no message. |
| BulkImport.BadEmailRowMessages | client/src/components/AdminDashboard.jsx:204-236 | A user whose only fault is the email produces exactly the email message. |
| BulkImport.TwoRowExample | client/src/components/AdminDashboard.jsx:285-304 | For a valid row followed by a row with a bad email, exactly one message is collected, and it names row 2. |
| BulkImport.AllViolations | client/src/components/AdminDashboard.jsx:285-304 | The messages of every row, concatenated in row order. `BulkImport.ViolationsExact`, `BulkImport.ViolationsNamed`, `BulkImport.ViolationsNoRepeats` and `BulkImport.NoViolationsIff` state what it holds. |
| BulkImport.AllViolationsSnoc | client/src/components/AdminDashboard.jsx:300-301 | One more row appends exactly that row's messages. |
| BulkImport.NoViolationsIff | client/src/components/AdminDashboard.jsx:306 | The sheet has no violation exactly when every row passes every check. |
| BulkImport.ViolationsExact | client/src/components/AdminDashboard.jsx:285-304 | A message for row `k` and a rule is collected exactly when row `k` exists and breaks that rule. |
| BulkImport.ViolationsNamed | client/src/components/AdminDashboard.jsx:285-304 | Every collected message is the message of a check that some row of the sheet fails. Nothing else is collected. |
| BulkImport.ViolationsNoRepeats | client/src/components/AdminDashboard.jsx:285-304 | No message is collected twice. |
| BulkImport.LabelDeterminesRow | client/src/components/AdminDashboard.jsx:214 | A message carries the label of its own row and of no other. |
| BulkImport.NormaliseAll | client/src/components/AdminDashboard.jsx:286 | One user per row. |
| BulkImport.NormaliseAllPointwise | client/src/components/AdminDashboard.jsx:286-304 | Row `k` becomes user `k`. |
| BulkImport.MapAndValidate | client/src/components/AdminDashboard.jsx:285-304 | The mapping loop yields one normalised user per row, in row order, and the concatenation in row order of every row's messages. |
| AdminDashboardPage.IsExcelType | client/src/components/AdminDashboard.jsx:241-245 | Only the `.xlsx` and `.xls` MIME types count as spreadsheets. |
| AdminDashboardPage.Spread | client/src/components/AdminDashboard.jsx:103 | `{...uploadProgress}`: spreading a number gives no entries, and spreading the per-folder object gives its entries. |
| AdminDashboardPage.CreateFolderRequest | client/src/components/AdminDashboard.jsx:43-45 | A POST to the create URL whose body is exactly the folder name. |
| AdminDashboardPage.DeleteFolderRequest | client/src/components/AdminDashboard.jsx:186 | A DELETE of that folder's URL with no body. |
| AdminDashboardPage.FileUploadRequest | client/src/components/AdminDashboard.jsx:107-116 | A multipart POST to that folder's upload URL, with one `images` entry per selected file holding that file, in selection order. |
| AdminDashboardPage.ImportRecords | client/src/components/AdminDashboard.jsx:318 | One JSON record per user, in order. Each record has exactly the five fields username, email, password, phone and role, with that user's values. |
| AdminDashboardPage.ImportRequest | client/src/components/AdminDashboard.jsx:318 | A POST to the users-upload URL whose JSON array holds one record per user, in order. |
| AdminDashboardPage.RegisteredMessage | client/src/components/AdminDashboard.jsx:323 | `Successfully registered ${users.length} users`, with the count in decimal. |
| AdminDashboardPage.PlanImport | client/src/components/AdminDashboard.jsx:285-314 | The decision on a parsed sheet: reject it with every violation when there is any, otherwise submit its users. `AdminDashboardPage.ImportAllOrNothing` states what it means. |
| AdminDashboardPage.GateSheet | client/src/components/AdminDashboard.jsx:285-314 | The mapping loop and the violation-count test together make the plan `PlanImport` specifies. |
| AdminDashboardPage.ImportAllOrNothing | client/src/components/AdminDashboard.jsx:285-325 | The sheet is submitted exactly when every row passes every check, and then with one user per row in row order. A rejection is never empty. It holds the message of every failed check of every row once, and nothing else. |
| AdminDashboardPage.RemoveFolder | client/src/components/AdminDashboard.jsx:187 | Exactly the folders with another id remain. |
| AdminDashboardPage.DeleteUndoesCreate | client/src/components/AdminDashboard.jsx:184-191 | Deleting a folder just created gives the earlier list minus that id. |
| AdminDashboardPage.AdminDashboard.constructor | client/src/components/AdminDashboard.jsx:12-24 | The initial React state. |
| AdminDashboardPage.AdminDashboard.FetchFolders | client/src/components/AdminDashboard.jsx:30-39 | On success, the server's list is shown and the error cleared. On failure, the `message` or "An error occurred" is shown. |
| AdminDashboardPage.AdminDashboard.CreateFolder | client/src/components/AdminDashboard.jsx:41-52 | On success, the new folder is appended, the name field emptied and the error cleared. On failure, the list and name stay and the error is shown. |
| AdminDashboardPage.AdminDashboard.HandleDeleteFolder | client/src/components/AdminDashboard.jsx:184-191 | On success, exactly the folders with that id leave the list. On failure, the list stays and the error is shown. |
| AdminDashboardPage.AdminDashboard.HandleFileSelect | client/src/components/AdminDashboard.jsx:54-59 | The picked files replace that folder's selection only. |
| AdminDashboardPage.AdminDashboard.HandleFileUpload | client/src/components/AdminDashboard.jsx:96-129 | With no selection, an error is shown and nothing is sent. Otherwise the folder's progress is 0 and one multipart request is made. On success, the selection is emptied and the list fetched again. On failure, the error is shown. In the end the folder is not uploading, on top of the `uploading` map from before the call. |
| AdminDashboardPage.AdminDashboard.HandleExcelFileChange | client/src/components/AdminDashboard.jsx:238-256 | A spreadsheet type becomes the chosen file, with the status cleared and the progress at 0. Any other type sets only the error status and keeps the old file. No file changes nothing. |
| AdminDashboardPage.AdminDashboard.HandleExcelUpload | client/src/components/AdminDashboard.jsx:258-353 | With no file, the error status is set and nothing else happens. Otherwise the progress goes to 10, and each kind of failed read leaves its status and its progress trace. A parsed sheet ends as `SheetOutcome`: a rejection shows every violation, resets progress to 0 and sends nothing; a submission makes one request, and ends at 100 with the count and the file cleared, or at 0 with the error. |
| AdminDashboardPage.AdminDashboard.ShowReading | client/src/components/AdminDashboard.jsx:268 | The progress becomes 10 before the file is read, and nothing else changes. |
| AdminDashboardPage.AdminDashboard.ShowReadFailure | client/src/components/AdminDashboard.jsx:267-352 | Each kind of failed read leaves its error status and its progress values. |
| AdminDashboardPage.AdminDashboard.ShowParsed | client/src/components/AdminDashboard.jsx:274-280 | The progress passes 30 and ends at 50 once the sheet is parsed, and nothing else changes. |
| AdminDashboardPage.AdminDashboard.ImportSheet | client/src/components/AdminDashboard.jsx:271-325 | The progress passes 30 and 50, and the rows end as `PlanImport` decides. |
| AdminDashboardPage.AdminDashboard.ApplyPlan | client/src/components/AdminDashboard.jsx:306-325 | A rejected plan sets the validation status and progress 0 and sends nothing. A submitted plan behaves as `SubmitUsers`. |
| AdminDashboardPage.AdminDashboard.ShowImportOutcome | client/src/components/AdminDashboard.jsx:319-338 | The answer to the import request is shown. On success: progress 100, the registered count, and the file cleared. On failure: the `message` or the processing error, progress 0, and the file kept. |
| AdminDashboardPage.AdminDashboard.SubmitUsers | client/src/components/AdminDashboard.jsx:316-339 | Progress 70, then one gateway request with every user. On success, progress 100, "Successfully registered N users" and the file cleared. On failure, the `message` or the processing error, with progress 0 and the file kept. |

## Left out

- Spreadsheet parsing: `FileReader`, `XLSX.read` and `sheet_to_json` are foreign code. Their outcome is the input `SheetRead`: the parsed rows as maps from column to cell text, or the point at which reading failed. `XLSX.utils.sheet_to_json(sheet, { raw: false })` at AdminDashboard.jsx:279 yields every cell value as text, so `String(cell || "")` is modelled on text cells only.
- Encryption: `CryptoJS.AES.encrypt` is an arbitrary function parameter. The model only states which field carries its output.
- Transport: the axios transport, the base URL and `withCredentials` are left out. The server's answers to a request, its refresh and its replay are inputs (`Exchange`).
- Async and concurrency: two requests that expire at once each refresh on their own, and an upload's `finally` can race another upload. Both need interleaving, which the model does not have. It runs one handler at a time, and captures the `uploading` snapshot of `handleFileUpload` as written.
- Api.RevokeCalls: a 493 answer to the revoke call is not modelled, and `Api.Browser.Logout` promises its outcome only for other answers.
  - The revoke goes through the `api` instance, so a 493 runs the response interceptor before the `catch` of `handleLogout` sees anything.
  - With no refresh token stored, that interceptor calls `handleLogout` again. With one still stored, it refreshes again.
  - Either way, the `finally` that removes the keys and navigates is not reached first.
  - The revoke carries the access token the server has just reported expired. So a 493 is the likely answer on both cascade paths whenever the logout route checks the token like the other routes.
- Timer and reload: the `setTimeout` delay before `/login` after a reset is recorded as `scheduledRoute`. `window.location.href` is a route change, and the full page reload it causes is left out.
- Lower-casing: `toLowerCase` is modelled for ASCII letters only. Other scripts' case mappings are not captured.
- Lengths: lengths are counted in characters. JavaScript counts UTF-16 code units, so characters outside the Basic Multilingual Plane differ.
- Rendering: JSX, `useEffect` scheduling, `window.confirm` (the boolean input `confirmed`) and the file input reset at `AdminDashboard.jsx:328-329` are left out.
- Upload payloads: image uploads are modelled by file names only.
- Other AdminDashboard handlers: `handleFolderSelect`, `handleFolderUpload`, `handleEditImageName`, `saveImageName`, `handleEditFolderName`, `saveFolderName`, `handleDeleteImage`, `toggleFolder` and `handleViewUsers` are not part of this model. They are view glue around single requests.
- Other files: `Signup.jsx`, `FolderCard.jsx`, `App.jsx` and `main.jsx` are not part of this model.
