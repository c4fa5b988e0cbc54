# Session, route guard, referral validation and request gateway of the referral admin client

This project models, in Dafny, the logic of a single-page administrative client for a
referral and commission platform: the authentication context that mirrors a token and a
user profile into `localStorage`, the guard in front of administrative routes, the
debounced referral-code validation and submit path of the registration page, and the
generic request helper with its endpoint table. Presentation (markup, styling, tables)
is not modelled.

Modules, one per source file plus small helpers:

- `Wrappers` — `Option`, standing for `null`/`undefined` versus a value.
- `JsStrings` — the JavaScript string semantics the code relies on: truthiness, `trim`
  (ECMA-262 WhiteSpace and LineTerminator), `substring(0, n)`, decimal rendering.
- `Storage` — `localStorage` as a class over a `map<string, string>`, shared by the
  session context and the gateway.
- `Session` (`src/contexts/AuthContext.js`) — role entries in both shapes, the `isAdmin`
  and `hasRole` predicates, the restore decision of the mount effect, and the
  `AuthProvider` class with `token`, `user` and `loading` fields.
- `AdminGuard` (`src/components/AdminRoute.js`) — the total four-way decision.
- `Gateway` (`src/services/api.js`) — base URL, default headers, header merge, reply
  classification, `ApiCall` and its 401 side effect, and the `api` table.
- `Referral` (`src/pages/Register.js`) — the validation record and its transitions, the
  500 ms debounce as a function of edit times, and how replies are applied.
- `Registration` (`src/pages/Register.js`) — the page as a class: form, timer handle,
  validation record, submit and reply handling.

`JSON.parse`/`JSON.stringify`, `fetch` and the backend are parameters: the provider holds
`encode`/`decode` functions (`None` meaning the parse throws), `ApiCall` takes a `server`
function from request to reply and a `parse` function, and the referral and registration
replies are abstract outcomes. `process.env.REACT_APP_API_URL` is an `env` parameter;
`window.location` and `navigate` are returned or stored redirect targets.

The model follows the code as written, also where it departs from the intended design, with two
exceptions: the page class applies the corrections of the two Findings below, so
`Registration.RegisterPage.Settle` discards replies of older validation cycles (its `cycle`
field is that correction's counter) and `Registration.RegisterPage.Submit` posts to the
corrected registration URL; the behaviour as written is modelled beside them by
`Referral.ApplyAsWritten` and `Registration.RegisterUrlAsWritten`. Otherwise:

- The guard redirects when `user` is null, not when the token is absent.
- Raising `isValidating` keeps the previous record's other fields, so "validating" and
  "valid" can show together (`Referral.WellFormed` describes the reachable records).
- A stored profile that does not parse makes the mount effect throw; the session is not
  left empty-and-loaded (see `Session.AuthProvider.Init`).
- Cancelling the timer does not cancel a request already in flight, so overlapping
  validation calls do happen (see Findings).

## Model

| member | source | states |
|---|---|---|
| `Session.AnyEntryNamedIff` | src/contexts/AuthContext.js:42-44 | `roles.some(...)` finds a role entry named `r` (nested `role.name` or flat `name`) exactly when one exists |
| `Session.IsAdminIff` | src/contexts/AuthContext.js:38-45 | `isAdmin` is true iff there is a user, it has `roles`, and some entry is named `admin` in either shape; false with no user or no roles |
| `Session.HasRoleIff` | src/contexts/AuthContext.js:48-53 | `hasRole(r)` is true iff there is a user with `roles` holding an entry named `r` in either shape; false (falsy) otherwise |
| `Session.UserIsAdmin` | src/contexts/AuthContext.js:38-45 | false without a user, without `roles` or with no entries; specified by `Session.IsAdminIff` |
| `Session.UserHasRole` | src/contexts/AuthContext.js:48-53 | false without a user, without `roles` or with no entries; specified by `Session.HasRoleIff` |
| `Session.AuthProvider.IsAdmin` | src/contexts/AuthContext.js:61 | the context's `isAdmin` over its `user`: false while no one is logged in |
| `Session.AuthProvider.HasRole` | src/contexts/AuthContext.js:62 | the context's `hasRole` over its `user`: false while no one is logged in |
| `Session.HasAdminRoleIsAdmin` | src/contexts/AuthContext.js:38-53 | `hasRole('admin')` equals `isAdmin()` for every user |
| `Session.RestoreSession` | src/contexts/AuthContext.js:13-19 | nothing is restored iff an item is missing or empty; with both truthy, the session is restored iff the stored profile decodes, as the stored token and the decoded profile |
| `Session.ClearedStoreRestoresNothing` | src/contexts/AuthContext.js:13-19 | a store without both items restores nothing |
| `Session.LoginIsRestored` | src/contexts/AuthContext.js:23-28 | what `login` writes is restored as the same token and user, for a non-empty token and a profile that survives serialisation |
| `Session.AuthProvider.IsAuthenticated` | src/contexts/AuthContext.js:60 | authenticated iff the token is a non-empty string; under the pairing invariant an authenticated session also has a profile |
| `Session.AuthProvider.constructor` | src/contexts/AuthContext.js:7-9 | initially `user` and `token` are null and `loading` is true |
| `Session.AuthProvider.Init` | src/contexts/AuthContext.js:11-21 | restores both values or neither and then clears `loading`; an unparseable stored profile throws with nothing committed |
| `Session.AuthProvider.Login` | src/contexts/AuthContext.js:23-28 | writes `token` and the serialised user to the store, then sets both fields; token and user stay paired |
| `Session.AuthProvider.Logout` | src/contexts/AuthContext.js:30-35 | removes both store keys, clears both fields, nothing else changes |
| `Session.LogoutTwice` | src/contexts/AuthContext.js:30-35 | a second logout leaves the same store and fields as one |
| `Session.LoginThenReload` | src/contexts/AuthContext.js:11-28 | after login, a fresh provider on the same store restores the same session, and the role queries reflect the profile |
| `Session.LogoutThenReload` | src/contexts/AuthContext.js:11-35 | after logout, a fresh provider restores nothing and is not authenticated |
| `Storage.LocalStorage.GetItem` | src/contexts/AuthContext.js:13-14 | `getItem` returns the stored string, or null exactly when the key is absent |
| `Storage.LocalStorage.SetItem` | src/contexts/AuthContext.js:24-25 | `setItem` replaces one key and keeps the rest |
| `Storage.LocalStorage.RemoveItem` | src/contexts/AuthContext.js:31-32 | `removeItem` deletes one key and keeps the rest |
| `AdminGuard.GuardSeesAdmin` | src/components/AdminRoute.js:22-24 | the guard's inline `roles?.some(...)`: false without `roles` or entries; equal to `isAdmin` by `AdminGuard.GuardTestIsIsAdmin` |
| `AdminGuard.Decide` | src/components/AdminRoute.js:6-43 | spinner exactly while loading; a redirect only to `/login` with replace and only without a user; children only with a user; fully specified by `AdminGuard.DecideOutcomes` |
| `AdminGuard.GuardTestIsIsAdmin` | src/components/AdminRoute.js:22-24 | the guard's inline admin test agrees with the context's `isAdmin` on every user |
| `AdminGuard.DecideOutcomes` | src/components/AdminRoute.js:6-43 | spinner iff loading; redirect to `/login` with replace iff loaded and no user; denial iff loaded, a user, and not admin; children iff loaded and admin; exactly one holds |
| `AdminGuard.RenderIffAdminEntry` | src/components/AdminRoute.js:22-43 | children are rendered iff some role entry is named `admin`; a user without `roles` gets the denial view, not a redirect |
| `AdminGuard.GuardFor` | src/components/AdminRoute.js:6-14 | its frame is the provider's `loading` and `user` fields only, never `token`; while loading it shows the spinner |
| `Gateway.BaseUrl` | src/services/api.js:2 | the base is the configured URL when truthy, otherwise `http://localhost:3001` |
| `Gateway.DefaultHeaders` | src/services/api.js:11-18 | always `Content-Type: application/json`; `Authorization: Bearer <token>` exactly when the stored token is truthy |
| `Gateway.MergeHeaders` | src/services/api.js:20-26 | every header either side supplies is present and the caller's value wins on a shared name |
| `Gateway.Configure` | src/services/api.js:5-26 | method and body pass through, the content type and every caller header are present; specified by `Gateway.ConfigureShape` |
| `Gateway.ConfigureShape` | src/services/api.js:5-26 | the URL is base followed by the endpoint, method and body pass through, the content type is sent, the bearer header is present iff the token is truthy or the caller supplies one |
| `Gateway.Classify` | src/services/api.js:34-58 | non-ok status gives the HTTP error with status and full text; ok status returns the parsed value, or the invalid-JSON error if the text does not parse; a transport error is rethrown unchanged |
| `Gateway.HttpMessage` | src/services/api.js:44 | starts with `HTTP error! status: `; its status and body are specified by `Gateway.ErrorMessagesDistinct` |
| `Gateway.JsonMessage` | src/services/api.js:53 | starts with `Invalid JSON response: `; its body preview is specified by `Gateway.JsonMessagePreview` |
| `Gateway.ErrorMessagesDistinct` | src/services/api.js:44-53 | the HTTP error message holds the status digits, which read back as the status, and ends with the whole body; it never equals an invalid-JSON message |
| `Gateway.JsonMessagePreview` | src/services/api.js:53 | the invalid-JSON message carries a prefix of the body of at most 100 UTF-16 code units: all of it when it fits, otherwise cut only where the next character would pass the limit |
| `Gateway.ApiCall` | src/services/api.js:5-58 | one request, built from the store's token as read before the call; result is the classification of the one reply; a 401 removes `token` and `user` and redirects to `/login`; any other reply leaves the store unchanged |
| `Gateway.UnauthorizedThenReload` | src/services/api.js:38-42 | the redirect to `/login` happens exactly when the call throws the HTTP error of status 401, and the page load it causes starts with an empty, loaded, unauthenticated session |
| `Gateway.UserEndpoints` | src/services/api.js:64-84 | `getUser`, `updateUser` (PUT with body) and `deleteUser` (DELETE) share `/users/<id>`, which determines the id; `getUsers` and `createUser` (POST with body) share `/users` |
| `Gateway.CollectionEndpoints` | src/services/api.js:64-90 | `getUsers`, `getDashboardStats` and `getCommissionLogs` hit `/users`, `/dashboard` and `/commission-logs` with no options, none of which is a single user's path |
| `Gateway.GetUsers` | src/services/api.js:64 | `GET /users`; specified by `Gateway.CollectionEndpoints` |
| `Gateway.GetUser` | src/services/api.js:67 | `GET /users/<id>`; specified by `Gateway.UserEndpoints` |
| `Gateway.CreateUser` | src/services/api.js:70-73 | `POST /users` with the body; specified by `Gateway.UserEndpoints` |
| `Gateway.UpdateUser` | src/services/api.js:76-79 | `PUT /users/<id>` with the body; specified by `Gateway.UserEndpoints` |
| `Gateway.DeleteUser` | src/services/api.js:82-84 | `DELETE /users/<id>`; specified by `Gateway.UserEndpoints` |
| `Gateway.GetDashboardStats` | src/services/api.js:87 | `GET /dashboard`; specified by `Gateway.CollectionEndpoints` |
| `Gateway.GetCommissionLogs` | src/services/api.js:90 | `GET /commission-logs`; specified by `Gateway.CollectionEndpoints` |
| `Gateway.ValidateReferralCode` | src/services/api.js:93 | `GET /auth/check-referral-valid?ref=<code>`, unencoded; specified by `Gateway.ReferralEndpoint` |
| `Gateway.ReferralEndpoint` | src/services/api.js:93 | the code is the whole value after `?ref=`, verbatim and unencoded, and can be read back from the endpoint |
| `JsStrings.Trim` | src/pages/Register.js:35 | `trim` never lengthens and keeps only characters of its input; specified by `JsStrings.TrimShape` and `JsStrings.TrimBounds` |
| `JsStrings.TrimBounds` | src/pages/Register.js:35 | the removed ends are white space and the kept part neither starts nor ends with it |
| `JsStrings.Utf16Prefix` | src/services/api.js:53 | `substring(0, n)`: a prefix of at most `n` UTF-16 code units, the whole string when it fits, otherwise maximal among whole characters |
| `JsStrings.DecimalString` | src/services/api.js:44 | `${status}`: one or more decimal digits with no leading zero; read back by `JsStrings.DecimalRoundTrip` |
| `JsStrings.TrimShape` | src/pages/Register.js:35 | `trim` gives the empty string exactly for all-white input and otherwise starts and ends with a non-white character |
| `JsStrings.TrimIdempotent` | src/pages/Register.js:35 | trimming a trimmed code changes nothing |
| `JsStrings.DecimalRoundTrip` | src/services/api.js:44 | the status rendered in the error message reads back as the status |
| `JsStrings.DecimalStringInjective` | src/services/api.js:44 | distinct statuses render differently |
| `Referral.Begin` | src/pages/Register.js:35-52 | an all-white code resets to untouched and sends nothing; otherwise `isValidating` is raised, the other three fields are kept and the trimmed code is sent |
| `Referral.Settled` | src/pages/Register.js:53-74 | a finished call never leaves `isValidating`; valid iff the reply is valid; the error is `Invalid referral code` exactly when not valid; the referrer is `userName`, or `N/A` when that is null or undefined |
| `Referral.FailedLooksInvalid` | src/pages/Register.js:53-74 | a failed call gives exactly the record an invalid reply gives |
| `Referral.CycleKeepsWellFormed` | src/pages/Register.js:34-75 | both steps of a validation cycle keep the record in its reachable shapes |
| `Referral.Fired` | src/pages/Register.js:77-81 | at most one validation per edit, and with no unmount the last edit's value is always validated last; specified by `Referral.FiredIff` |
| `Referral.FiredIff` | src/pages/Register.js:77-81 | a value is validated iff an edit held it and no edit or unmount followed within 500 ms |
| `Referral.BurstValidatesLast` | src/pages/Register.js:77-81 | within a burst of edits under 500 ms apart only the last value is validated |
| `Referral.UnmountCancelsPending` | src/pages/Register.js:80 | unmounting within the quiet period cancels exactly the pending validation |
| `Referral.DebounceExample` | src/pages/Register.js:77-81 | edits at 0, 100, 200 and 600 ms cause one validation, with the value of 600 ms |
| `Referral.ApplyAsWritten` | src/pages/Register.js:51-74 | as written, the record ends as the last-arriving reply left it, whichever cycle sent it |
| `Referral.StaleReplyOverwritesNewer` | src/pages/Register.js:51-80 | as written, a late reply from an earlier cycle overwrites the newer cycle's result |
| `Referral.ApplyLatest` | src/pages/Register.js:51-74 | with the cycle guard, the record is the old one or the settlement of a reply of the latest cycle |
| `Referral.LatestReplyWins` | src/pages/Register.js:51-80 | with a cycle guard, in any arrival order, the record shows the latest cycle's outcome if it arrived and is untouched otherwise |
| `Referral.LatestReplyIsStable` | src/pages/Register.js:51-80 | with the guard, replies after the latest cycle's one leave its result shown |
| `Referral.GuardKeepsNewer` | src/pages/Register.js:51-80 | with the guard, the arrival order of the counterexample keeps the newer result |
| `Registration.BuildPayload` | src/pages/Register.js:102-107 | name, email and password as typed; `referralId` is null for an empty field and the untrimmed string otherwise; nothing from the validation record enters |
| `Registration.BlankReferralIsSentUnvalidated` | src/pages/Register.js:35-106 | every non-empty code of white space is never validated but is sent as typed |
| `Registration.RegisterUrlAsWritten` | src/pages/Register.js:96 | the URL as written always ends with `/auth/register`, whatever the variable holds |
| `Registration.RegisterUrlIgnoresDefault` | src/pages/Register.js:96 | as written, with the variable unset the page posts to `undefined/auth/register`, unlike every other call |
| `Registration.RegisterUrl` | src/pages/Register.js:96 | the corrected URL agrees with the written one when the variable is set and uses the default base otherwise |
| `Registration.RegisterPage.constructor` | src/pages/Register.js:7-21 | all form fields empty, no error, not loading, validation untouched |
| `Registration.RegisterPage.HandleChange` | src/pages/Register.js:25-30 | only the field named by the event changes; every other field keeps its value |
| `Registration.RegisterPage.ReferralEffect` | src/pages/Register.js:77-81 | a change of `referralId` replaces the pending timer by one due 500 ms later with the current value |
| `Registration.RegisterPage.Tick` | src/pages/Register.js:34-78 | a due timer fires once: it resets on an empty code, or raises `isValidating` and sends the trimmed code to the referral endpoint; otherwise nothing changes |
| `Registration.RegisterPage.Settle` | src/pages/Register.js:53-74 | a reply of the latest cycle settles the record; an older reply is discarded |
| `Registration.RegisterPage.Unmount` | src/pages/Register.js:80 | unmounting cancels the pending timer |
| `Registration.RegisterPage.Submit` | src/pages/Register.js:83-108 | the error is cleared; mismatched passwords set `Passwords do not match` and send nothing; otherwise loading starts and the payload is sent, whatever the validation record |
| `Registration.RegisterPage.Finish` | src/pages/Register.js:110-122 | an ok reply logs in and navigates home; a refusal shows its message or `Registration failed`; a thrown error shows its message; the page's loading ends while the provider's `loading` flag stays as it was |
| `Registration.ReplayReferralEdits` | src/pages/Register.js:25-81 | driving the page through edits, timers and unmount validates exactly the values the debounce rule selects |

## Left out

- Markup, styling and icons of every component; `console.log`/`console.error`.
- `Users.js`, `CommissionsLogs.js` and `Dashboard.js`: screens that fetch and render, with no logic beyond the gateway calls modelled here.
- `Navbar.js`: fetches nothing; its logout button calls the modelled `logout` (`Session.AuthProvider.Logout`) and then navigates to `/login`, and it greets `user?.name || 'User'`.
- `JSON.parse`/`JSON.stringify`, `fetch`, `response.text()`/`json()`: parameters or abstract outcomes, as described above; a stored profile that parses to a non-object (such as `null`) is not modelled.
- Real timers, `async`/`await` ordering and React scheduling: time is an integer in milliseconds, an edit is a render in which `referralId` changed, and an event at exactly a timer's due time is ordered after the timer. React's first effect run on mount is the first edit of a replay.
- `useAuth`'s error outside a provider, and React's batching of state updates: not observable in the model.
- Session.AuthProvider.Login: takes a non-null profile; `login(token, null)` from a reply without a `user` is not modelled.
- Session.UserHasRole: returns `false` where the source returns `undefined` for a user without `roles`; both are falsy. A role name other than a string, and non-object role entries (which would make `some` throw), are not modelled.
- Registration.RegisterPage.Settle: uses the cycle guard of the corrected behaviour (Findings), so it does not reproduce a stale overwrite; `Referral.ApplyAsWritten` models that.
- Registration.RegisterPage.Submit: uses the corrected registration URL (Findings).
- Referral.Settled: a truthy `isValid` that is not `true` is stored as is in the source; the model stores `true`.
- Gateway.JsonMessagePreview: when a surrogate pair straddles the 100th code unit, JavaScript keeps its lone first half; a Dafny string holds only whole Unicode scalar values, so the model's preview stops one code unit earlier there.
- Gateway.ApiCall: `options` other than method, body and headers, header-name case folding by `fetch`, and the page reload that the assignment to `window.location.href` triggers (modelled by `Gateway.UnauthorizedThenReload`).

## Findings

| source | as written | input that shows it | evidently intended | confidence | as-written member | corrected member |
|---|---|---|---|---|---|---|
| src/pages/Register.js:51-80 | the effect's cleanup clears only the timer; a request already sent is not cancelled, and every reply overwrites `referralValidation` | edit `OLD` at 0 ms and `NEW` at 600 ms; the reply for `NEW` (valid) arrives before the reply for `OLD` (invalid): the page shows `Invalid referral code` for `NEW` | a reply belongs to a validation cycle and only the latest cycle's reply is applied | medium; not executed | `Referral.StaleReplyOverwritesNewer` | `Referral.LatestReplyWins` |
| src/pages/Register.js:96 | the URL is `process.env.REACT_APP_API_URL + '/auth/register'` with no default | `REACT_APP_API_URL` unset: the request goes to `undefined/auth/register` while every other call uses `http://localhost:3001` | build the URL from the same base as the gateway | medium; not executed | `Registration.RegisterUrlIgnoresDefault` | `Registration.RegisterUrl` |
