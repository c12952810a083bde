# Task manager core: sessions, rate limiting, validation and the task pages

This project models the server and page logic of a Next.js task manager. The app has email/password accounts. Meeting transcripts are turned into tasks.

- **Rate limiter:** an in-process fixed-window limiter (`RateLimit`). It is a class holding the table from keys to request counts. It has its `rateLimit` call and the periodic sweep.
- **Request validators (`Validations`):** the zod schemas, interpreted check by check in zod's order.
  - Length bounds see the raw input, before `.trim()`.
  - Every failing check is reported.
  - Defaults apply to `undefined` only.
- **Grouping loop (`ValidationErrors`):** every route turns zod issues into an `errors` dictionary with the same loop.
- **Response helpers (`ApiUtils`):** the error and success response helpers, and the client address read from `x-forwarded-for`.
- **Session layer (`Auth`, `Store`):**
  - The cookie store is a class changed in place.
  - `getCurrentUser`.
  - The refresh-token records in the database, with revocation and rotation.
- **Auth routes (`LoginRoute`, `RegisterRoute`, `RefreshRoute`, `LogoutRoute`):** each one is a method over the limiter, the database and the cookie jar. Its checks run in the source's order. In login, register and refresh, each failure path leaves the store and the cookies unchanged. Logout clears both cookies on its error path too.
- **Task routes (`TasksRoute`, `ConfirmRoute`):** listing and creation of tasks, and bulk creation from a confirmed meeting. The check order is 401, then 429, then 400, then 404, then 403.
- **Edge gate (`Middleware`):** it decides between letting a request through and redirecting, and it renews expired sessions through the refresh route.
- **Dashboard page (`Dashboard`):** the helpers inside it. They are the status cycle, the overdue test, the counters, removing a deleted task, and the save request.
- **Meeting-notes page (`MeetingsPage`):** the helpers inside it. They are the extraction guard, toggling and editing items, and the confirmation request.

Cryptography, salted hashes, database ids and the clock are parameters:

- A `Crypto` value carries the signer, the verifier and `bcrypt.compare`.
- Each route receives the hash or id the environment produced.
- `now` is the time of the call in milliseconds. JWTs carry whole seconds.
- A request body is the parsed JSON, or nothing when it does not parse.

## Model

| member | source | states |
|---|---|---|
| RateLimit.Step | lib/rate-limit.ts:31-54 | the key always has an entry afterwards, whose window end is the one reported; a refusal leaves the table unchanged with remaining 0; a success reports max minus the new count |
| RateLimit.RateLimiter.Check | lib/rate-limit.ts:31-54 | the table and result are those of `Step`: an unknown or expired key (`now > resetAt`) opens a window with count 1; a full window refuses with remaining 0 and changes nothing; otherwise the count goes up by one |
| RateLimit.RateLimiter.Sweep | lib/rate-limit.ts:12-19 | the sweep loop leaves exactly the entries whose window has not ended, unchanged |
| RateLimit.Unexpired | lib/rate-limit.ts:12-19 | a key survives the sweep iff it was present and `now <= resetAt`, with its entry unchanged |
| RateLimit.StepIsolation | lib/rate-limit.ts:36-53 | a call on one key never adds, removes or changes another key's entry |
| RateLimit.StepBoundary | lib/rate-limit.ts:38-42 | at `now == resetAt` the old window still applies; one millisecond later a fresh window with a full budget starts |
| RateLimit.StepKeepsBound | lib/rate-limit.ts:44-53 | every count stays within 1..max; a success leaves remaining in 0..max-1 equal to max minus the count; a refusal leaves the table unchanged |
| RateLimit.Run | lib/rate-limit.ts:31-54 | successive calls on one key give one outcome per call |
| RateLimit.RunWithinWindow | lib/rate-limit.ts:44-53 | inside one window the i-th further call succeeds with remaining max-(c+i+1) while c+i < max, and is refused with 0 afterwards |
| RateLimit.Countdown | __tests__/rate-limit.test.ts:23-45 | from a fresh window, the calls inside it get remaining max-1, ..., 0 and every later call in the window is refused |
| RateLimit.SweepUnobservable | lib/rate-limit.ts:12-19 | sweeping before a call never changes that call's outcome or that key's entry |
| RateLimit.RunAppend | lib/rate-limit.ts:31-54 | two batches of calls run one after the other give the outcomes of the combined batch |
| RateLimit.RunStateWithinWindow | lib/rate-limit.ts:48-53 | inside one window each call adds one to the count until the maximum, and the window's end stays |
| RateLimit.FixedWindowBurst | lib/rate-limit.ts:38-53 | the window is fixed: one chained run of 2·max calls on a new key all succeed within windowMs+1 ms, 2·max−1 of them within one millisecond across the window's end |
| ApiUtils.ApiError | lib/api-utils.ts:4-16 | the status is the given one (400 by default); the body has `error` and, exactly when errors are given, `errors`, and nothing else |
| ApiUtils.ApiSuccess | lib/api-utils.ts:18-20 | the body is the data unchanged, with status 200 by default |
| ApiUtils.GetClientIp | lib/api-utils.ts:23-27 | a missing or empty header gives "unknown" |
| ApiUtils.ClientIpIsFirstHop | lib/api-utils.ts:24-25 | for a non-empty header the address is the trimmed text before the first comma |
| ApiUtils.ClientIpHasNoComma | lib/api-utils.ts:23-27 | the address never contains a comma |
| ValidationErrors.GroupIssues | app/api/auth/login/route.ts:26-34 | the loop builds a dictionary whose keys are exactly the joined paths that have issues, each holding its messages in issue order |
| Domain.StatusFromName | lib/validations.ts:46 | a name is read iff it is one of the three status literals, and the status reads back to that name |
| Domain.PriorityFromName | lib/validations.ts:47-50 | a name is read iff it is one of the four priority literals, and the priority reads back to that name |
| Domain.NamesRoundTrip | lib/validations.ts:46-50 | writing a status or priority name and reading it back gives the same value |
| Validations.PasswordClassesMustShareFirstLine | lib/validations.ts:21-24 | "a\nA1" holds a lowercase letter, an uppercase letter and a digit, but the pattern refuses it, because the lookaheads only see the first line |
| Validations.StringField | lib/validations.ts:6-10 | a refused string field always carries at least one issue |
| Validations.OptionalNullableString | lib/validations.ts:40-45 | a refused optional nullable field always carries an issue |
| Validations.OptionalString | lib/validations.ts:60-65 | a refused optional field always carries an issue |
| Validations.DueDateOrNull | lib/validations.ts:51-56 | a refused due date always carries an issue |
| Validations.EnumField | lib/validations.ts:46-50 | an accepted enum value is one of the literals or the default |
| Validations.StatusField | lib/validations.ts:46 | a refused status always carries an issue |
| Validations.PriorityField | lib/validations.ts:47-50 | a refused priority always carries an issue |
| Validations.RegisterSchema | lib/validations.ts:5-25 | a refused registration always carries an issue |
| Validations.LoginSchema | lib/validations.ts:27-30 | a refused login always carries an issue |
| Validations.CreateTaskSchema | lib/validations.ts:34-57 | a refused task body always carries an issue |
| Validations.UpdateTaskSchema | lib/validations.ts:59-80 | a refused update always carries an issue |
| Validations.ExtractTranscriptSchema | lib/validations.ts:84-90 | a refused transcript always carries an issue |
| Validations.ActionItemSchema | lib/validations.ts:96-106 | a refused action item always carries an issue |
| Validations.ParseEach | lib/validations.ts:94-107 | an accepted array yields one parsed value per element; a refused one carries an issue |
| Validations.ActionItemsField | lib/validations.ts:94-109 | a refused item list always carries an issue |
| Validations.ConfirmActionItemsSchema | lib/validations.ts:92-110 | a refused confirmation always carries an issue |
| Validations.NameField | lib/validations.ts:6-10 | a name is accepted iff 2 <= raw length <= 100, and is stored trimmed; each bound violated reports its own message |
| Validations.PaddedShortNameAccepted | lib/validations.ts:6-10 | " a" passes the two-character minimum and is stored as "a" |
| Validations.RegisterEmailField | lib/validations.ts:11-16 | the registration e-mail is accepted iff it has the e-mail format and at most 255 raw characters; it is stored lower-cased, then trimmed |
| Validations.LowerThenTrim | lib/validations.ts:15-16 | the two transforms compose to trim of lower-case |
| Validations.LoginEmailField | lib/validations.ts:28 | the login e-mail is accepted iff it has the e-mail format, and it is cleaned as at registration |
| Validations.PasswordField | lib/validations.ts:17-24 | the password is accepted iff 8 <= length <= 128 and the pattern holds, and it is kept as given |
| Validations.LoginPasswordField | lib/validations.ts:29 | the login password is accepted iff it is non-empty, and it is kept as given |
| Validations.TitleField | lib/validations.ts:35-39 | a title is accepted iff 1 <= raw length <= 255; it is stored trimmed, so a blank title is stored empty |
| Validations.DescriptionField | lib/validations.ts:40-43 | a description is accepted iff it has at most 2000 raw characters, and is stored trimmed |
| Validations.TranscriptField | lib/validations.ts:84-90 | a transcript is accepted iff 10 <= raw length <= 50000, and is stored trimmed |
| Validations.BlankTranscriptAccepted | lib/validations.ts:85-89 | ten spaces pass and become the empty transcript |
| Validations.RegisterAccepts | lib/validations.ts:5-25 | a registration is accepted iff each of its three fields is, and the result holds the trimmed name, the cleaned e-mail and the raw password |
| Validations.RegisterIssuePaths | lib/validations.ts:5-25 | every issue is keyed by name, email, password or the empty path |
| Validations.RegisterEmptyBody | lib/validations.ts:5-25 | `{}` gives "Required" for name, email and password, in that order |
| Validations.LoginAccepts | lib/validations.ts:27-30 | a login is accepted iff the e-mail has the format and the password is non-empty |
| Validations.LoginFindsRegisteredEmail | lib/validations.ts:11-28 | an e-mail accepted at registration is cleaned identically at login |
| Validations.OptionalDescription | lib/validations.ts:40-45 | `undefined`, `null` and a bounded string stay apart; a string is stored trimmed |
| Validations.DueDate | lib/validations.ts:51-56 | a due date is accepted iff it is absent, null or a datetime; a date results iff a non-empty string was given |
| Validations.CreateStatus | lib/validations.ts:46 | the status is accepted iff it is absent or a literal; TODO when absent |
| Validations.CreatePriority | lib/validations.ts:47-50 | the priority is accepted iff it is absent or a literal; MEDIUM when absent |
| Validations.CreateTaskAccepts | lib/validations.ts:34-57 | a task body is accepted iff the title is 1-255 raw characters and every other field is absent or well formed; the defaults apply |
| Validations.BlankTitleAccepted | lib/validations.ts:35-39 | `{title: " "}` is accepted as an empty title with the defaults |
| Validations.NullStatusRejected | lib/validations.ts:46 | a null status is refused on create and on update |
| Validations.UpdateTaskAccepts | lib/validations.ts:59-80 | an update is accepted iff each present field is well formed; absent and null are kept apart |
| Validations.UpdateEnums | lib/validations.ts:72-73 | update enums have no default: absent stays absent |
| Validations.OptionalDatetime | lib/validations.ts:74-79 | the update due date keeps undefined, null and a datetime apart |
| Validations.EmptyUpdateAccepted | lib/validations.ts:59-80 | `{}` is a valid update that changes nothing |
| Validations.ParseEachAccepts | lib/validations.ts:94-107 | an array is accepted iff every element is, and its values are the elements' values in order |
| Validations.ActionItemAccepts | lib/validations.ts:96-106 | an action item is accepted iff its fields are; its priority defaults to MEDIUM |
| Validations.ConfirmAccepts | lib/validations.ts:92-110 | a confirmation is accepted iff the id is a UUID and there are 1 to 50 items, each accepted |
| Store.FindUserByEmail | app/api/auth/login/route.ts:39-41 | finds a user with that e-mail; nothing iff no user has it |
| Store.FindUserById | lib/auth.ts:149-152 | finds a user with that id; nothing iff no user has it |
| Store.FindTranscript | app/api/meetings/confirm/route.ts:34-36 | finds a transcript with that id; nothing iff none has it |
| Store.RevokeAll | app/api/auth/refresh/route.ts:58-60 | exactly the records of other users remain |
| Store.LiveFor | app/api/auth/refresh/route.ts:36-41 | exactly the records of the user that expire after `now` |
| Store.Rotate | app/api/auth/refresh/route.ts:57-80 | the store after rotation holds exactly the new record and the other users' records, with the new record last |
| Store.RevokeAllTouchesOnlyItsUser | app/api/auth/refresh/route.ts:58-60 | revocation empties that user's records and keeps everyone else's, in order |
| Store.RotateLeavesOne | app/api/auth/refresh/route.ts:57-80 | after a rotation the user has exactly the new record |
| Store.RotationIsSingleUse | app/api/auth/refresh/route.ts:57-80 | after a rotation, a token the new hash refuses matches no live record of the user |
| Store.RotationNewTokenWorks | app/api/auth/refresh/route.ts:72-80 | the new token matches a live record until the new record expires |
| Store.RevokeKillsEveryChain | app/api/auth/logout/route.ts:9-14 | after revocation the user has no live record, so no token matches |
| Store.Db.DeleteRefreshTokensOf | app/api/auth/refresh/route.ts:58-60 | the refresh table becomes `RevokeAll` of the old one; other tables are unchanged |
| Store.Db.CreateRefreshToken | app/api/auth/refresh/route.ts:74-80 | the record is appended; other tables are unchanged |
| Store.Db.CreateUser | app/api/auth/register/route.ts:48-51 | the user is appended; other tables are unchanged |
| Store.Db.CreateTasks | app/api/meetings/confirm/route.ts:47-57 | the tasks are appended and their number is returned |
| Auth.AuthCookieOptions | lib/auth.ts:106-120 | httpOnly, sameSite lax, path "/", secure only in production, with the given max age |
| Auth.WithAuthCookies | lib/auth.ts:100-121 | the two session cookies carry the tokens with 900 s and 604800 s lifetimes; every other cookie is untouched |
| Auth.WithoutAuthCookies | lib/auth.ts:123-127 | exactly the two session cookies are gone |
| Auth.GetTokensFromCookies | lib/auth.ts:129-138 | each token is its cookie's value, or null exactly when the cookie is absent |
| Auth.SetThenGet | lib/auth.ts:100-138 | setting the session cookies and reading them back gives the same tokens |
| Auth.ClearThenGet | lib/auth.ts:123-138 | after clearing, neither token is found |
| Auth.ClearUndoesSet | lib/auth.ts:100-127 | clearing after setting equals clearing alone |
| Auth.CookieJar.Set | lib/auth.ts:106-112 | the jar holds the cookie under its name; nothing else changes |
| Auth.CookieJar.Delete | lib/auth.ts:125-126 | the name is gone; nothing else changes |
| Auth.CookieJar.SetAuthCookies | lib/auth.ts:100-121 | the jar becomes `WithAuthCookies` of the old jar |
| Auth.CookieJar.ClearAuthCookies | lib/auth.ts:123-127 | the jar becomes `WithoutAuthCookies` of the old jar |
| Auth.GetCurrentUser | lib/auth.ts:142-155 | a current user is always a stored user |
| Auth.CurrentUserCases | lib/auth.ts:142-155 | there is a current user iff the access cookie is non-empty, verifies, and names an existing user, and it is that user |
| RefreshRoute.MatchesAny | app/api/auth/refresh/route.ts:44-51 | the loop with early exit finds a match iff some live record's hash accepts the token |
| RefreshRoute.NewRecord | app/api/auth/refresh/route.ts:74-80 | the new record is the user's, holds the new hash and lives 7 days |
| RefreshRoute.Post | app/api/auth/refresh/route.ts:14-90 | the checks run in order 429, 401 (no token), 401 (bad JWT), 401 (no live match); success iff all pass, and then the store is rotated and both cookies are set; every failure leaves the store and cookies unchanged |
| RefreshRoute.RefreshedTokenIsSingleUse | app/api/auth/refresh/route.ts:57-80 | after a refresh, the presented token no longer matches any live record |
| RefreshRoute.NewRefreshTokenWorks | app/api/auth/refresh/route.ts:72-80 | the freshly issued refresh token matches a live record for seven days |
| LoginRoute.Authenticates | app/api/auth/login/route.ts:39-50 | credentials authenticate only if some stored user has that e-mail and the password opens that user's hash; an unknown e-mail never authenticates |
| LoginRoute.Post | app/api/auth/login/route.ts:14-82 | the order is 429, 500 (unparseable body), 400 with grouped errors, 401 for an unknown e-mail or wrong password (the same response), then success: rotation plus both cookies |
| LoginRoute.LoginLeavesOneSession | app/api/auth/login/route.ts:52-69 | after a login the user has exactly the new record and others keep theirs |
| LoginRoute.LoginEndsEarlierSessions | app/api/auth/login/route.ts:52-69 | after a login no earlier refresh token matches a live record |
| RegisterRoute.NewUser | app/api/auth/register/route.ts:47-51 | the created user has the cleaned name and e-mail, the new id and the password hash |
| RegisterRoute.Post | app/api/auth/register/route.ts:14-81 | the order is 429, 500, 400, 409 for a taken e-mail, then 201: user created, one refresh record, cookies set; e-mails stay unique |
| RegisterRoute.NewEmailKeepsUnique | app/api/auth/register/route.ts:38-51 | adding a user whose e-mail is not taken keeps e-mails unique |
| RegisterRoute.RegisteredUserCanLogIn | app/api/auth/register/route.ts:38-51 | once registered, the e-mail finds the new user and its password authenticates at login |
| LogoutRoute.Post | app/api/auth/logout/route.ts:5-26 | cookies are always cleared; with a current user their records are revoked; a database failure, possible only when a verifying access token makes the route query the database, gives 500 with the store unchanged |
| LogoutRoute.LogoutEndsOnlyOwnSessions | app/api/auth/logout/route.ts:9-14 | after logout no token of the user matches a live record, and other users keep their records |
| TasksRoute.SortFieldFor | app/api/tasks/route.ts:18-32 | the sort field is the requested one when whitelisted, else createdAt |
| TasksRoute.BuildQuery | app/api/tasks/route.ts:15-32 | the filter is always the user; status and priority filters apply iff the parameter is a literal; ascending iff order=asc |
| TasksRoute.Get | app/api/tasks/route.ts:9-49 | 401 iff there is no current user; otherwise the query is built for that user |
| TasksRoute.ListingIsOwnTasksOnly | app/api/tasks/route.ts:22-28 | a listed task always belongs to the current user, whatever the query string |
| TasksRoute.UnknownSortFallsBack | app/api/tasks/route.ts:18-32 | unknown sort fields and order words give createdAt, descending |
| TasksRoute.TaskFromInput | app/api/tasks/route.ts:77-82 | the stored task has the parsed fields, the user's id and no source transcript |
| TasksRoute.Post | app/api/tasks/route.ts:52-89 | the order is 401 (before the rate limit), 429, 500 for a body that does not parse, 400 with grouped errors exactly for an invalid body, then 201 with exactly one task appended; each status is stated in both directions |
| ConfirmRoute.ItemToTask | app/api/meetings/confirm/route.ts:48-56 | each task is TODO, owned by the user, linked to the transcript, and copies the item's fields |
| ConfirmRoute.ItemsToTasks | app/api/meetings/confirm/route.ts:47-57 | one task per item, in item order |
| ConfirmRoute.Post | app/api/meetings/confirm/route.ts:9-80 | the order is 401, 429 (on the bucket shared with task creation), 500 for a body that does not parse, 400 for an invalid body, 404 for a missing transcript, 403 for another user's transcript, each stated in both directions; tasks are created iff every check passes, and the count is in the message |
| ConfirmRoute.ConfirmedTasksAreOwned | app/api/meetings/confirm/route.ts:33-57 | every created task belongs to the user who owns the transcript |
| Middleware.IsPublic | middleware.ts:11-16 | the login and register pages and any dotted path are public |
| Middleware.DecideWith | middleware.ts:7-69 | a redirect goes only to /dashboard, /login or the requested path; a public path gets through or goes to /dashboard; cookies are carried only back to the path, after a refresh attempt whose reply was ok, and they are the reply's cookies |
| Middleware.Decide | middleware.ts:7-69 | the gate as written: cookies on a redirect come only from an ok reply to the cookie-only refresh call |
| Middleware.DecideForwarding | middleware.ts:7-69 | the corrected gate: cookies on a redirect come only from an ok reply to the refresh call that forwards x-forwarded-for |
| Middleware.Gate | middleware.ts:7-69 | the decision equals `Decide`, whose refresh call carries only the refresh cookie; at most one refresh call is made, exactly when the gate attempts a refresh; the loop copies the set-cookie headers in order |
| Middleware.GatedNeedsValidAccess | middleware.ts:33-43 | a gated path passes iff its access token verifies |
| Middleware.PublicPathsPass | middleware.ts:11-30 | a public path always passes, except that /login and /register redirect to /dashboard iff the access token verifies |
| Middleware.DottedPathsBypassTheGate | middleware.ts:11-16 | any path containing a dot passes without a token |
| Middleware.RedirectTargets | middleware.ts:18-69 | redirects only go to /dashboard, /login or the requested path; only the last carries cookies, after a refresh attempt |
| Middleware.RefreshOutcome | middleware.ts:44-69 | an expired session with a refresh token is renewed by the cookie-only call; the visitor goes back to the same path with the route's cookies on success, and to /login otherwise |
| Middleware.MissingTokensGoToLogin | middleware.ts:33-38 | a gated request with no usable token and no refresh goes to /login |
| Middleware.RefreshRequestAsWritten | middleware.ts:50-55 | the gate's refresh call carries only a cookie header |
| Middleware.RefreshRequest | middleware.ts:50-55 | the corrected call also carries the visitor's x-forwarded-for |
| Middleware.AsWrittenRefreshesShareOneBucket | middleware.ts:50-55 | every gate-initiated refresh lands on one rate-limit key, so the sixth inside a minute is refused, whoever sends it |
| Middleware.ForwardingChangesOnlyTheRefreshCall | middleware.ts:44-69 | the corrected gate decides as the gate as written does, except that its refresh call also carries the visitor's x-forwarded-for |
| Middleware.ForwardedRefreshesKeepClientBuckets | middleware.ts:50-55 | with the header forwarded, the key is the visitor's own, and visitors with different first hops never share a bucket |
| Dashboard.NextStatus | app/dashboard/page.tsx:177 | a click always asks for a different status |
| Dashboard.StatusCycle | app/dashboard/page.tsx:177 | every click changes the status, and three clicks restore it |
| Dashboard.StatusClickIsValidUpdate | app/dashboard/page.tsx:176-183 | the click's body is an update the validator accepts, changing only the status |
| Dashboard.IsOverdue | app/dashboard/page.tsx:191-194 | an overdue task has a due date and is not done; a task without a date or already done is never overdue |
| Dashboard.ComputeStats | app/dashboard/page.tsx:198-204 | the total is the number of tasks, and every counter is at most the total |
| Dashboard.CountStatus | app/dashboard/page.tsx:200-202 | a status count never exceeds the number of tasks |
| Dashboard.CountOverdue | app/dashboard/page.tsx:203 | the overdue count never exceeds the number of tasks |
| Dashboard.StatsAddUp | app/dashboard/page.tsx:198-204 | total = todo + inProgress + done, and overdue <= total - done |
| Dashboard.DeleteById | app/dashboard/page.tsx:166 | exactly the tasks with other ids remain |
| Dashboard.DeleteSplits | app/dashboard/page.tsx:166 | deletion distributes over concatenation, so order is kept |
| Dashboard.DeleteAbsent | app/dashboard/page.tsx:166 | deleting an absent id leaves the list unchanged |
| Dashboard.DeleteIdempotent | app/dashboard/page.tsx:166 | deleting twice is deleting once |
| Dashboard.EditForm | app/dashboard/page.tsx:103-111 | the form has the task's title, status and priority and its description or ""; its due date is exactly the first min(16, length) characters of the stored one, and empty iff there is no date |
| Dashboard.HandleSave | app/dashboard/page.tsx:117-158 | a refusal shows "Title is required" or the catch-all message; a sent request is PUT exactly when editing and POST otherwise, with an object body |
| Dashboard.SaveRefusals | app/dashboard/page.tsx:117-133 | "Title is required" iff the title is blank; nothing is sent iff the title is blank or the date cannot be rendered |
| Dashboard.SaveBody | app/dashboard/page.tsx:126-136 | a sent body has a trimmed non-empty title, a trimmed description that is null iff the form's was blank, and PUT to the task's URL iff editing |
| Dashboard.SaveFieldsAccepted | app/dashboard/page.tsx:127-133 | body fields within the bounds pass the create-task validator with the form's values |
| Dashboard.SavedCreateIsAccepted | app/dashboard/page.tsx:117-142 | a create from the form within the bounds is accepted by the server with the form's title, status, priority and date |
| Dashboard.EditThenSaveKeepsTask | app/dashboard/page.tsx:103-136 | opening a trimmed task and saving unchanged sends its own fields back to its URL |
| MeetingsPage.HandleExtract | app/dashboard/meetings/page.tsx:44-62 | a refusal shows the ten-character message; the text sent is the trimmed transcript, at least 10 characters long |
| MeetingsPage.Extracted | app/dashboard/meetings/page.tsx:50-78 | after an extraction the transcript is kept, the new id and summary are shown, every extracted item is listed ticked, and the error and success lines are empty |
| MeetingsPage.ExtractGuard | app/dashboard/meetings/page.tsx:45-61 | the page refuses iff the trimmed text has fewer than 10 characters; what it sends is already trimmed and at least 10 characters long |
| MeetingsPage.ExtractRequestAccepted | app/dashboard/meetings/page.tsx:44-62 | what the page sends, the validator accepts unchanged |
| MeetingsPage.Fresh | app/dashboard/meetings/page.tsx:73-78 | every freshly extracted item is ticked |
| MeetingsPage.Toggle | app/dashboard/meetings/page.tsx:87-93 | only the item at the index flips its checkbox; everything else is unchanged |
| MeetingsPage.ToggleTwice | app/dashboard/meetings/page.tsx:87-93 | toggling twice restores the list |
| MeetingsPage.Update | app/dashboard/meetings/page.tsx:96-102 | only the named field of the indexed item changes |
| MeetingsPage.UpdateUnchanged | app/dashboard/meetings/page.tsx:96-102 | writing back a field's current value changes nothing |
| MeetingsPage.Selected | app/dashboard/meetings/page.tsx:108 | exactly the ticked items |
| MeetingsPage.SelectedSplits | app/dashboard/meetings/page.tsx:108 | selection distributes over concatenation, so order is kept |
| MeetingsPage.AllTickedAllSelected | app/dashboard/meetings/page.tsx:108 | a fully ticked list is selected whole |
| MeetingsPage.HandleConfirm | app/dashboard/meetings/page.tsx:105-129 | a refusal shows "Select at least one action item to create"; a request carries the page's non-empty transcript id and between one and all of its items |
| MeetingsPage.ConfirmSendsSelection | app/dashboard/meetings/page.tsx:105-129 | ignored iff there is no transcript id; sent iff some item is ticked; the request holds exactly the ticked items in order, with the due date renamed |
| MeetingsPage.ExtractThenConfirm | app/dashboard/meetings/page.tsx:71-78 | right after an extraction, confirming sends every extracted item |
| MeetingsPage.ConfirmedMessage | app/dashboard/meetings/page.tsx:139 | the success line is the reported count, or the number sent when the report is missing or zero, in decimal, followed by the fixed text |
| MeetingsPage.Confirmed | app/dashboard/meetings/page.tsx:115-143 | after a successful confirmation the transcript, its id, the summary, the items and the error are cleared, and the success line counts the tasks created |
| MeetingsPage.Reset | app/dashboard/meetings/page.tsx:152-159 | the reset page has no transcript, id, summary, items, error or success |
| MeetingsPage.NoSecondSubmit | app/dashboard/meetings/page.tsx:139-159 | after a confirmation or a reset, a second confirm does nothing |

## Left out

- Cryptography is uninterpreted:
  - HS256 signing and verification, including `exp`, are fields of a `Crypto` value, so the secrets are not modelled.
  - bcrypt hashing is a parameter and `bcrypt.compare` is a predicate.
  - The missing-secret exceptions are not modelled.
- `Crypto` combines the JWT verifier and the expiry check.
- Database ids, timestamps and any `findMany` order Prisma chooses are not modelled.
- `TasksRoute.Get`: returns the query it runs (filter, sort field, order), not the rows in database order.
- `ConfirmRoute.Post`: the `tasks` array in its response lists the created tasks in item order. The source re-reads them from the database, newest first, limited to the item count.
- 500 paths: a database call that throws is modelled only for logout. A body that does not parse gives 500 in every route. Other throws are out.
- Concurrency between requests, and a limiter shared across server instances, are not modelled.
- Date parsing and `toISOString` are parameters of the page helpers.
- The zod e-mail, UUID and datetime formats are uninterpreted predicates.
- Strings are sequences of characters, not UTF-16 code units. `toLowerCase` maps ASCII letters only.
- `app/api/meetings/extract/route.ts` and `lib/llm.ts` are not part of this model. They wrap a call to a language model.
- `app/api/auth/me/route.ts` and `app/api/tasks/[id]/route.ts` are not part of this model.
- The middleware's unused `API_AUTH_PATHS` constant is not modelled.
- `Middleware.Gate`: a redirect keeps the path and drops the query string, as `new URL(pathname, request.url)` does. Cookie header parsing on the refresh route's side is not modelled: the token is passed through as is.
- `RefreshRoute.RefreshedTokenIsSingleUse`: needs the new token to differ from the presented one. Two tokens for the same user issued in the same second are equal, because JWT `iat` has one-second resolution.
- The fetch of the task list, the page's loading flags and the success line's wording on the dashboard are not modelled. Only `MeetingsPage.ConfirmedMessage` is kept.
- The rate limiter's header comment calls it sliding. The code is fixed-window, and the model follows the code (see `RateLimit.FixedWindowBurst`).
- The validation tests expect the extraction schema to accept and keep a `name` field. The schema has no such field; the model follows the schema.
- `Validations.StringField` and the other schema functions: their own contracts only say that a refusal carries an issue. What each accepts and produces is stated by the lemmas named after the fields and schemas.

## Findings

| source | as written | input that shows it | evidently intended | confidence | as-written member | corrected member |
|---|---|---|---|---|---|---|
| middleware.ts:50-55 | The gate's own refresh request sends only the refresh cookie. The refresh route therefore keys its rate limit on the address of the server's own call, which is the same for every visitor. | Six visitors whose access tokens have expired open a gated page within one minute. Each has a valid refresh token. The sixth refresh gets 429, and that visitor is sent to /login. | Each visitor's renewals count against that visitor's own address, as their direct calls to the refresh route do. | not executed; medium | Middleware.AsWrittenRefreshesShareOneBucket | Middleware.DecideForwarding, Middleware.ForwardedRefreshesKeepClientBuckets |

The gate in this model, `Middleware.Decide` and `Middleware.Gate`, sends the request as written, `Middleware.RefreshRequestAsWritten`. The corrected gate is `Middleware.DecideForwarding`, which sends `Middleware.RefreshRequest`; `Middleware.ForwardingChangesOnlyTheRefreshCall` relates the two.
