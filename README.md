# EDSA power tracker admin portal — a Dafny model

This project models the admin web portal of the EDSA power tracker: a React
application over a hosted Supabase backend. Administrators use it to
announce power outages to communities, resolve outages and residents'
reports, and sign in. The model covers the behaviour of:

- the Outages page: form validation, creating an outage and its
  notification, resolving an outage, cancelling the form;
- the Reports page: search and status filter, the short report id, the
  Resolve button, resolving a report;
- the layout's authentication gate, the login page, the first-admin sign-up
  page, the landing page, and the page title in the top bar.

Structure:

- `backend.dfy` holds the backend the pages talk to.
  - A class `Backend.Db` holds the auth session and the `admin`, `outages`,
    `reports` and `notifications` tables as sequences.
  - It has one method per request a page sends.
  - It keeps a log of requests, so contracts can say which requests a page
    made and in what order.
  - Each request's transport outcome is an input (`Js.Reply`):
    - it went through (`Ok`);
    - the client returned `{ error }` (`Failed`);
    - or the awaited promise rejected (`Rejected`).
  - A read's data is computed from the tables: an equality filter,
    `.single()` as "exactly one matching row", `.limit(1)`.
  - A write changes a table only when it goes through.
  - The invariant `Db.Valid` says every notification names an existing
    outage or report. Every page operation preserves it.
- `js.dfy` models what the pages' `catch` blocks receive and how they turn it
  into a message.
- `text.dfy` models the string operations the pages call: ASCII case mapping,
  `includes`, `split`, and `replace` with a string pattern.
- Each page is a module with a class whose fields are the page's state
  variables. Its methods are the page's handlers.

Four behaviours of the source are reproduced as written:

- The outage announcement's template literal has no `${` before its second
  line. So the text `type === "Emergency" ? "n" : ""`, with its line breaks
  and indentation, is part of every announcement. An Emergency outage is
  never announced with "An". `Outages.CreationMessageShape` states this.
- After a successful outage creation `loading` stays true. Only the
  validation and error paths reset it.
- Resolving an outage or a report whose preliminary read failed still
  updates the row. It then fails on reading `community_id` of `null`, so no
  notification is sent and the TypeError's message is recorded in the page's
  `error`. The Reports page shows that error; the Outages page never renders
  its `error` state, so a failed create or resolve there shows nothing.
- A Reports card reads `report.status.toLowerCase()` without `?.`, so when a
  shown report has no status the list fails to render
  (`Reports.ReportsPage.Render` gives `Crashed`).

## Model

| member | source | states |
|---|---|---|
| `Outages.OutagesPage.constructor` | src/Pages/Outages.jsx:8-18 | The form starts blank with type Scheduled. The form error starts as the empty string. The page starts loading with the modal closed. |
| `Outages.OutagesPage.OpenModal` | src/Pages/Outages.jsx:318-322 | The create button opens the modal. |
| `Outages.Truthy` | src/Pages/Outages.jsx:44 | A form error counts as shown when it is a non-empty string; null and "" do not. |
| `Outages.OutagesPage.ClearErrorWhenComplete` | src/Pages/Outages.jsx:42-47 | Once community, start, end and reason are all filled, a shown form error is cleared. Otherwise the error is unchanged. |
| `Outages.IsComplete` | src/Pages/Outages.jsx:124 | A form is complete when community, start, end and reason are all non-empty; the type is not checked. The blank form is incomplete. |
| `Outages.OutagesPage.ValidateForm` | src/Pages/Outages.jsx:123-129 | Validation passes exactly when the four required fields are non-empty; the type is not checked. On failure it sets "All fields are required". |
| `Outages.OutagesPage.ResetForm` | src/Pages/Outages.jsx:175-179 | The form returns to its blank state with type Scheduled. |
| `Outages.SignedIn` | src/Pages/Outages.jsx:144-147 | The submission passes the session check when the session read went through and found a session; a failed read or a missing session does not pass. |
| `Outages.OutagesPage.HandleSubmit` | src/Pages/Outages.jsx:132-187 | An incomplete form sends no request and clears `loading`. With no session (a returned error counts as none) the result is "Admmin not logged in ". Otherwise the outage and its notification are created as `Created` describes, and `error` is set to `SubmitError` (the page never renders it). On success the form is reset, the modal is closed and `loading` stays true. No resolved outage is reopened and `Db.Valid` is kept. |
| `Outages.OutagesPage.CreateOutage` | src/Pages/Outages.jsx:150-186 | The outage is added with the backend's id only when the insert goes through. The notification is sent only after that. A rejected notification insert is reported and keeps the form; a returned notification error is ignored. |
| `Outages.OutagesPage.Announce` | src/Pages/Outages.jsx:164-186 | Adds the announcement to the notifications only when its insert goes through. Only a rejection sets the error. Otherwise the form is reset and the modal closed. |
| `Outages.SubmitError` | src/Pages/Outages.jsx:162-184 | The submission records no error in `error` (which the page never renders) exactly when the outage insert went through and the notification insert was not rejected. |
| `Outages.NewOutage` | src/Pages/Outages.jsx:152-159 | The inserted row carries the form's community, type, times and reason, the signed-in admin as creator, and no status. |
| `Outages.CreationNotification` | src/Pages/Outages.jsx:164-173 | The type is ScheduledOutage exactly when the form type is "Scheduled", UnscheduledOutage otherwise. The title is the type followed by " Power Outage". The notification goes to the chosen community, with no user, and names the new outage. |
| `Outages.CreationMessageShape` | src/Pages/Outages.jsx:168-170 | Every announcement starts with "A", a line break and the literal ternary text, whatever the type. It continues with the lower-cased type and ends with the reason. |
| `Outages.CreationMessageDependsOnLowerType` | src/Pages/Outages.jsx:170 | Two types that lower-case to the same text give the same message. |
| `Outages.RestoredNotification` | src/Pages/Outages.jsx:105-113 | A PowerRestored notification titled "Power Restored" goes to the outage's community, naming the outage. |
| `Outages.OutagesPage.HandleResolveOutage` | src/Pages/Outages.jsx:87-120 | It reads the outage, then updates it to Resolved with the end time set to now (any row with that id). It inserts the notification only when the update went through and the read found the row. The error chain is: read rejection, update rejection, update error, null `community_id` read, notification rejection. Resolution is never undone and `Db.Valid` is kept. |
| `Outages.OutagesPage.AnnounceRestored` | src/Pages/Outages.jsx:105-119 | Adds the restored notification only when its insert goes through. Only a rejection sets the error. |
| `Outages.OutagesPage.HandleCancel` | src/Pages/Outages.jsx:189-198 | Cancel resets the form, clears the form error and closes the modal, leaving the page error and loading untouched. |
| `Reports.ReportsPage.constructor` | src/Pages/Report.jsx:6-11 | The page starts with no reports, loading, no error, an empty search and no status filter. |
| `Reports.SearchedName` | src/Pages/Report.jsx:131 | A missing community name searches as "". A present name searches as its lower-case form: same length, each character lower-cased. |
| `Reports.MatchesSearch` | src/Pages/Report.jsx:130-134 | A report matches the search when the lower-cased query is included in its searched name. The empty query matches every report, and a matching query is no longer than the name. |
| `Reports.MatchesStatus` | src/Pages/Report.jsx:132-136 | A report matches the status filter when the filter is empty or equals its status ignoring case. A report with exactly the filter as its status matches; a report without a status matches only the empty filter. |
| `Reports.Filtered` | src/Pages/Report.jsx:129-138 | A report is shown exactly when it is fetched and matches both the search and the status filter. |
| `Reports.MatchesSearchIffOccurs` | src/Pages/Report.jsx:130-134 | The search matches exactly when the lower-cased query occurs as a block somewhere in the lower-cased community name. |
| `Reports.NoFilterShowsAll` | src/Pages/Report.jsx:129-138 | An empty search with "All Status" shows every fetched report, in order. |
| `Reports.MissingNameMatchesOnlyEmptyQuery` | src/Pages/Report.jsx:131-134 | A report without a community name is found only by the empty search. |
| `Reports.MissingStatusHiddenByFilter` | src/Pages/Report.jsx:132-136 | A report without a status is hidden by any status filter. |
| `Reports.FilterIgnoresCase` | src/Pages/Report.jsx:130-136 | Lower-casing the query and the status filter first shows the same reports. |
| `Reports.FilterKeepsOrder` | src/Pages/Report.jsx:129-138 | The shown part of two concatenated lists is the shown part of each, in the fetched order. |
| `Reports.FilterIdempotent` | src/Pages/Report.jsx:129-138 | Filtering the shown reports again changes nothing. |
| `Reports.ShortId` | src/Pages/Report.jsx:197 | The short id exists exactly when the id has at least three dashes, and contains no dash. |
| `Reports.ShortIdOfGroups` | src/Pages/Report.jsx:197 | For an id of dash-free groups joined by dashes (a UUID) the card shows the fourth group; `(4, 3)` selects index 3. |
| `Reports.ShowsResolve` | src/Pages/Report.jsx:212 | The Resolve button shows unless the status is exactly "Resolved". Every status that differs from "Resolved" even ignoring case shows it. |
| `Reports.ResolvedHidesButton` | src/Pages/Report.jsx:212-222 | After a report is resolved its card offers no Resolve button. Every other report keeps its button state. |
| `Reports.ResolvedNotification` | src/Pages/Report.jsx:112-120 | A ReportResolved notification titled "Report Resolved" goes to the report's community and author, naming the report. |
| `Reports.AllHaveStatus` | src/Pages/Report.jsx:188 | Every shown card can read `report.status.toLowerCase()`: each shown listing carries a status. |
| `Reports.ReportsPage.Render` | src/Pages/Report.jsx:71-188 | The page shows a spinner exactly while loading. It shows the error view, carrying the error's text, exactly when a non-empty error is set. Otherwise it shows "No reports found" when no report matches, fails to render (`Crashed`) exactly when a shown report has no status, and else shows the filtered cards. |
| `Reports.ReportsPage.ResolveReport` | src/Pages/Report.jsx:95-128 | It reads the report, sets it Resolved, and inserts the notification only when the update went through and the read found the row. The error chain is: read rejection, update rejection, update error, null `community_id` read, notification rejection. Each of these failures leaves a non-empty error that the settled page shows in its error view. A resolved report stays resolved and `Db.Valid` is kept. |
| `Reports.ReportsPage.AnnounceResolved` | src/Pages/Report.jsx:112-127 | Adds the ReportResolved notification only when its insert goes through. Only a rejection sets the error. |
| `Layout.AuthGate.constructor` | src/components/Layout.jsx:9-10 | The gate starts loading and unauthenticated. |
| `Layout.AuthGate.Render` | src/components/Layout.jsx:53-83 | The protected pages render exactly when not loading and authenticated. "Checking authentication..." shows exactly while loading. |
| `Layout.AuthGate.CheckAuth` | src/components/Layout.jsx:17-51 | Only a session whose user has exactly one admin row authenticates and ends loading. A user without that row is signed out. Every other path goes to /login and leaves loading set. |
| `Layout.AuthGate.Mount` | src/components/Layout.jsx:13-15 | From a fresh gate, the protected pages render exactly when the check finds an admin session. Otherwise the gate keeps "Checking" and goes to /login. The requests and the resulting session are those of `CheckAuth`: a refused user is signed out. |
| `Layout.AdminSession` | src/components/Layout.jsx:20-35 | The gate admits a user when the session read went through with a session and the admin lookup went through with exactly one row for its user id. With no admin rows nobody is admitted. |
| `Layout.AdminSessionHasRow` | src/components/Layout.jsx:29-35 | An accepted user has an admin row with their id. |
| `Login.LoginPage.constructor` | src/Pages/Login.jsx:9-10 | The page starts with no error, not loading, and no redirect. |
| `Login.LoginErrorText` | src/Pages/Login.jsx:32 | The shown text is the thrown value's string `message`, even an empty one, and "Login failed" when there is none. |
| `Login.LoginError` | src/Pages/Login.jsx:18-33 | A signed-in admin gets no error. A signed-in non-admin gets the access-denied text, unless the lookup or the sign-out was rejected. |
| `Login.FoundAdmin` | src/Pages/Login.jsx:24-25 | The login admits a user when the admin lookup went through and returned a row with their id (a returned error leaves no rows). With no admin rows nobody is admitted. |
| `Login.FoundAdminHasRow` | src/Pages/Login.jsx:24-25 | A user the lookup admits has an admin row with their id. |
| `Login.LoginPage.HandleLogin` | src/Pages/Login.jsx:13-36 | Only a signed-in user with an admin row is sent to /dashboard. A non-admin is signed out. The requests, the resulting session and the error are determined by the three outcomes. `loading` always ends false. |
| `SignUp.SignUpPage.constructor` | src/Pages/SignUp.jsx:10-14 | The page starts with an empty name and error, not loading, no admin known, and no redirect. |
| `SignUp.SignUpErrorText` | src/Pages/SignUp.jsx:73 | A thrown string is shown as itself. An error object shows its non-empty message, else "Could not Sign Up"; the text is never empty. |
| `SignUp.AdminRow` | src/Pages/SignUp.jsx:63-69 | The admin row carries the new user's id and email and the entered full name. |
| `SignUp.SignUpPage.Render` | src/Pages/SignUp.jsx:79-87 | "Admin Already Exists" shows exactly when an admin is known to exist. |
| `SignUp.SignUpPage.CheckAdminExists` | src/Pages/SignUp.jsx:18-24 | The flag becomes true exactly when the read went through and the admin table is non-empty. It is never cleared, and failures change nothing. |
| `SignUp.SignUpPage.HandleSignUp` | src/Pages/SignUp.jsx:46-77 | An admin row is inserted only for a returned user. Without one the error is "User not found". The page goes to /dashboard unless the insert was rejected; a returned insert error is ignored. `loading` always ends false. |
| `HomePage.Landing.constructor` | src/Pages/HomePage.jsx:7-9 | The page starts loading, with no admin known and no error. |
| `HomePage.Landing.Offered` | src/Pages/HomePage.jsx:66-81 | Exactly one button is offered: login when an admin exists, sign-up otherwise. |
| `HomePage.Landing.CheckForAdmin` | src/Pages/HomePage.jsx:19-44 | A successful read records whether the admin table is non-empty. A failure records the error's message and keeps the flag. `loading` always ends false. |
| `HomePage.FirstAdminJourney` | src/Pages/HomePage.jsx:19-81 | On an empty admin table the landing page offers sign-up. After the first account signs up, it offers login. |
| `NavBar.LastSegment` | src/components/NavBar.jsx:10 | The last path segment contains no slash and is no longer than the path. |
| `NavBar.LastSegmentOfChild` | src/components/NavBar.jsx:10 | The last segment of `prefix + "/" + name` is the slash-free `name`. |
| `NavBar.PageTitle` | src/components/NavBar.jsx:9-13 | "dashboard" and the empty segment give "Dashboard". Any other segment gives a title of the same length whose first character is upper-cased; `TitleText` gives the rest. |
| `NavBar.TitleText` | src/components/NavBar.jsx:12 | Past the first character, the title equals the segment at every position, except that the first dash there is a space. |
| `NavBar.TitleOfChild` | src/components/NavBar.jsx:9-13 | The title depends only on the last segment. |
| `NavBar.TitleReplacesFirstDashOnly` | src/components/NavBar.jsx:12 | Exactly one dash after the first character is removed when there is one: it becomes a space, and every later character, dashes included, stays in place. |
| `NavBar.TitleOfPlainChild` | src/components/NavBar.jsx:11-12 | A dash-free page name is titled by upper-casing its first character. |
| `NavBar.ReportsTitle` | src/components/NavBar.jsx:9-13 | Any path ending in "/reports" is titled "Reports". |
| `Backend.Single` | src/components/Layout.jsx:29-33 | `.single()` yields a row exactly when the request went through and exactly one row matches. Otherwise it returns an error (`Failed`, never a rejection), and a failed transport passes through. |
| `Backend.Where` | src/Pages/Login.jsx:24 | An `.eq` filter keeps exactly the rows that satisfy it, and never more rows than the table has. |
| `Backend.ResolveOutageRows` | src/Pages/Outages.jsx:96-102 | Every outage with the id becomes Resolved with the new end time; every other row is unchanged. |
| `Backend.ResolveReportRows` | src/Pages/Report.jsx:104-109 | Every report with the id becomes Resolved; every other row is unchanged. |
| `Backend.ResolveOutageRowsAdvance` | src/Pages/Outages.jsx:96-102 | Resolving an outage keeps every row's id and never reopens a resolved outage. |
| `Backend.ResolveReportRowsAdvance` | src/Pages/Report.jsx:104-109 | Resolving a report keeps every row's id and never reopens a resolved report. |
| `Backend.CorrelatedKept` | src/Pages/Outages.jsx:105-111 | A notification that names an existing outage or report still does after the tables advance. |
| `Backend.Db.GetSession` | src/components/Layout.jsx:20 | The session read returns the held session when it goes through. |
| `Backend.Db.SignInWithPassword` | src/Pages/Login.jsx:20 | A successful sign-in replaces the held session. |
| `Backend.Db.SignOut` | src/components/Layout.jsx:38 | A sign-out that goes through drops the session. |
| `Backend.Db.SignUp` | src/Pages/SignUp.jsx:54-57 | The sign-up request returns the backend's answer and changes no table. |
| `Backend.Db.SelectAdminsById` | src/Pages/Login.jsx:24 | The read returns the admin rows with the id. |
| `Backend.Db.SelectFirstAdmin` | src/Pages/HomePage.jsx:22 | The read returns at most the first admin row. |
| `Backend.Db.SingleAdminById` | src/components/Layout.jsx:29-33 | The read returns the single admin row with the id. |
| `Backend.Db.SingleOutageById` | src/Pages/Outages.jsx:90-94 | The read returns the single outage with the id. |
| `Backend.Db.SingleReportById` | src/Pages/Report.jsx:97-102 | The read returns the single report with the id. |
| `Backend.Db.InsertOutage` | src/Pages/Outages.jsx:150-161 | On success it appends the row under the backend's id and returns the stored row. |
| `Backend.Db.UpdateOutageResolved` | src/Pages/Outages.jsx:96-103 | On success it resolves the matching outages and keeps `Db.Valid`. |
| `Backend.Db.UpdateReportResolved` | src/Pages/Report.jsx:104-110 | On success it resolves the matching reports and keeps `Db.Valid`. |
| `Backend.Db.InsertNotification` | src/Pages/Outages.jsx:164-173 | On success it appends a correlated notification and keeps `Db.Valid`. |
| `Backend.Db.InsertAdmin` | src/Pages/SignUp.jsx:63-69 | On success it appends the admin row. |
| `Js.MessageOf` | src/Pages/HomePage.jsx:36 | `err.message` is present exactly on an error object whose message is a string. |
| `Js.MessageOr` | src/Pages/Outages.jsx:184 | `err.message || fallback` gives the message when it is a non-empty string and the fallback otherwise. |
| `Js.NullPropertyRead` | src/Pages/Outages.jsx:107 | Reading a property through `null` throws an error with a non-empty message. |
| `Text.UpperChar` | src/components/NavBar.jsx:12 | `charAt(0).toUpperCase()` maps a lower-case ASCII letter to the upper-case letter that lower-cases back to it, and leaves every other character unchanged. |
| `Text.Lower` | src/Pages/Report.jsx:130-132 | `toLowerCase` keeps the length and maps every character. |
| `Text.LowerIdempotent` | src/Pages/Report.jsx:130-136 | Lower-casing twice is lower-casing once. |
| `Text.Includes` | src/Pages/Report.jsx:134 | `includes` tries each start position in turn. A query it finds is no longer than the string, and the empty query is found everywhere. |
| `Text.IncludesIffOccurs` | src/Pages/Report.jsx:134 | `includes` holds exactly when the query occurs as a block somewhere in the string. |
| `Text.OccursImpliesIncludes` | src/Pages/Report.jsx:134 | `includes` finds every occurrence. |
| `Text.IncludesImpliesOccurs` | src/Pages/Report.jsx:134 | What `includes` finds is an occurrence. |
| `Text.IncludesEmpty` | src/Pages/Report.jsx:134 | The empty query is included in every string. |
| `Text.IncludesInEmpty` | src/Pages/Report.jsx:134 | A non-empty query is not included in the empty string. |
| `Text.Split` | src/Pages/Report.jsx:197 | `split` on one character gives one more piece than there are separators, and no piece contains the separator. |
| `Text.SplitAtSeparator` | src/components/NavBar.jsx:10 | Splitting at a separator splits the two sides independently. |
| `Text.SplitWithoutSeparator` | src/components/NavBar.jsx:10 | A string without the separator splits into itself. |
| `Text.JoinSplit` | src/components/NavBar.jsx:10 | Joining the pieces of a split gives back the string. |
| `Text.SplitJoin` | src/Pages/Report.jsx:197 | Splitting a join of separator-free pieces gives back the pieces. |
| `Text.IndexOf` | src/components/NavBar.jsx:12 | `indexOf` gives the first position of the character, or -1 exactly when it is absent. |
| `Text.ReplaceFirst` | src/components/NavBar.jsx:12 | `replace` with a one-character string keeps the length and changes only the first occurrence. |
| `Text.ReplaceFirstCount` | src/components/NavBar.jsx:12 | Replacing removes exactly one occurrence when there is one, and none otherwise. |

## Left out

- Fetching lists is not modelled: `fetchOutages`, `fetchCommunities`, `fetchReports`, the retry button, and the joins and ordering of those reads. The Reports page's fetched listings are a field of the page.
- Realtime channel subscriptions and the re-fetches they trigger are left out. They are concurrency outside the handlers.
- Toast messages are left out. They are display-only.
- These files are not part of this model: the Dashboard, Payments and Settings pages, the SideBar, the router in App.jsx, vite.config.js, and JSX/CSS rendering beyond the views modelled above.
- The clock is an input `now`. `handleResolveOutage` calls `new Date()` twice, for the end time and the send time; the model uses one `now` for both.
- Date formatting of the `datetime-local` inputs is left out: the times are opaque strings.
- `Js.NullPropertyRead`: the TypeError text is the wording of the V8 engine. Other JavaScript engines word this error differently, and their wording is not modelled.
- Case mapping covers ASCII letters only. JavaScript's full Unicode `toLowerCase`/`toUpperCase` is not modelled.
- Backend internals are left out: id generation is the insert's answer, column defaults such as the outage status are not modelled, and row-level security and the text of `.single()`'s error are not modelled.
- `Backend.Db.SignUp`: the session that a sign-up may open is not modelled. The held session is unchanged.
- Input `onChange` setters and `e.preventDefault()` are left out. They are direct field assignments with no logic.
- The Reports page's listings are a field of the page, not a read of the `reports` table: the table's rows always carry a status while a listing may lack one, and a card's Resolve button (`Reports.ShowsResolve`) is tied to the stored rows only through `Reports.ResolvedHidesButton`, because fetching is not modelled.
- The card details on the Reports page are left out: the reporter name, the meter number, the notes, and the CSS class chosen by `status.toLowerCase()`. That the class lookup throws on a missing status is modelled by `Crashed`.
- `HomePage.Landing.CheckForAdmin`: `null` and `undefined` in `error` are both modelled as `None`.
- `SignUp.SignUpPage.CheckAdminExists`: the effect has no error handling, so a rejected read is an unhandled rejection; the model treats it as changing nothing.
