# SmartTrack and ReviewRadar: a verified Dafny model of the core

This project models the decision and record-update logic of two small web
applications that live in the same repository.

**SmartTrack** is a job-application tracker.

- `ApplicationSchema` models the Application document and its embedded
  stages: the two closed status enumerations, the required fields and the
  defaults filled in on save.
- `ApplicationQuery` models the list query: filter by owner, search text and
  status, sort by one of three keys, paginate, and count.
- `ApplicationController` models the other application handlers as a class
  over a `map<Id, Application>`: create, update (a field-by-field merge with
  two different "keep the old value" rules), delete, and append a stage (with
  the derived-status rule).
- `UserController` models the account handlers as a class over a user table:
  register, login, logout, refresh of the access token, change of password,
  profile update and "me". Signed tokens and password hashes are abstract
  values. Each handler is specified by a step function over the table, and a
  sequence of requests by running those steps in order.
- `ProfilePage` models the profile page's skill list editing and the checks
  made before a password change is sent.
- `DashboardPage` models the dashboard's per-status counts and chart,
  Previous/Next clamping, the page reset on a new search or filter, and the
  URL of the list request, together with the parameters the server reads
  back from it.

**ReviewRadar** is a feedback collector.

- `FeedbackAction` models the feedback server action: sign-in check, field
  validation (title, description, category, rating with number coercion),
  and a single insert.
- `Middleware` models which request paths the middleware runs on (its
  matcher skips Next.js internals and static files) and the role gate on the
  three dashboard route families, whose matching ignores case.
- `DashboardLayout` models the role badge, the navigation links each role
  sees, and the in-page role guards. It proves that these agree with the
  middleware.

`Text` holds the string helpers with their JavaScript meaning: `trim`,
`toLowerCase` on ASCII, code-point order, decimal rendering and UTF-16
length. `Wrappers` holds `Option` and `Result`.

In `updateApplicationStage` the code sets the status to `rejected` first and
then to `offer` (server/controllers/applicationController.js:116-117), so a
stage named "offer" wins over a rejected stage. `DerivedStatus` and
`OfferWinsOverRejected` state that order.

## Model

| member | source | states |
|---|---|---|
| ApplicationSchema.ParseAppStatus | server/models/Application.js:22-26 | only the four status names are accepted, and an accepted name is the name of the status it yields |
| ApplicationSchema.ParseStageStatus | server/models/Application.js:6-10 | only the four stage status names are accepted, each yielding the status it names |
| ApplicationSchema.NewApplication | server/models/Application.js:14-33 | creation succeeds iff companyName and role are non-empty; the record is owned by the caller, starts "applied" with referralUsed false and no stages, appliedDate defaults to now; every missing required field is reported |
| ApplicationSchema.NewStage | server/models/Application.js:3-12 | a stage needs a non-empty name; an absent status defaults to "upcoming" and a sent one must be one of the four names |
| ApplicationQuery.InOrderTotal | server/controllers/applicationController.js:19-21 | any two applications are comparable under each of the three sort keys |
| ApplicationQuery.InOrderTrans | server/controllers/applicationController.js:19-21 | each sort key is transitive |
| ApplicationQuery.AscendingIds | server/controllers/applicationController.js:8-16 | the collection is scanned in ascending id order: every stored id exactly once, strictly increasing |
| ApplicationQuery.Select | server/controllers/applicationController.js:8-16 | the scan keeps exactly the stored documents that pass the owner, search and status filter |
| ApplicationQuery.Sort | server/controllers/applicationController.js:25 | sorting is a permutation of its input |
| ApplicationQuery.InsertSorted | server/controllers/applicationController.js:25 | inserting into a sorted list keeps it sorted |
| ApplicationQuery.SortProperties | server/controllers/applicationController.js:25 | the sorted list is ordered by the key, has distinct ids and holds the same entries |
| ApplicationQuery.Ordered | server/controllers/applicationController.js:8-25 | every matching document appears exactly once, ordered by the sort key that sortBy selects (appliedDate descending unless "oldest" or "company") |
| ApplicationQuery.SortedUnique | server/controllers/applicationController.js:19-25 | two lists sorted by the key, holding the same entries with distinct ids and no ties, are the same list |
| ApplicationQuery.SortedResultIsOrdered | server/controllers/applicationController.js:8-25 | when no two matching documents tie under the sort key, every sorted list of the matching documents, each once, is the model's ordered list, so the database has no other order to return |
| ApplicationQuery.CeilDiv | server/controllers/applicationController.js:35 | Math.ceil(n / d): the fewest pages of d that hold n records, 0 only for n = 0 |
| ApplicationQuery.Window | server/controllers/applicationController.js:26-27 | skip(n).limit(l) is the contiguous slice of at most l entries from position n, empty past the end |
| ApplicationQuery.List | server/controllers/applicationController.js:4-39 | the page holds only the caller's matching documents, sorted; its k-th entry is the ((page-1)*limit + k)-th match in sort order, and at most limit are taken; totalApplications counts every match and totalPages is its ceiling division by limit |
| ApplicationQuery.PageOf | server/controllers/applicationController.js:26-27 | the page numbered from 1 whose skip of (page-1)*limit records starts at or before position i and whose limit records reach past it |
| ApplicationQuery.WindowHolds | server/controllers/applicationController.js:26-27 | the entry at position i is on page PageOf(i, limit) |
| ApplicationQuery.WindowOnly | server/controllers/applicationController.js:26-27 | with distinct ids an entry is on no other page |
| ApplicationQuery.EveryMatchListed | server/controllers/applicationController.js:24-37 | when no two matching documents tie under the sort key, every matching application is listed on some page between 1 and totalPages |
| ApplicationQuery.PageWithinCount | server/controllers/applicationController.js:26-35 | the page of any position before n is no later than the last of the ceil(n / limit) pages |
| ApplicationQuery.PageOfPosition | server/controllers/applicationController.js:24-37 | when no two matching documents tie under the sort key, the only page that lists the application at position i is page PageOf(i, limit) |
| ApplicationQuery.ListedOnOnePage | server/controllers/applicationController.js:24-37 | when no two matching documents tie under the sort key, no application is listed on two different pages |
| ApplicationController.ApplyUpdate | server/controllers/applicationController.js:70-76 | companyName, role, status and nextDeadline change only for a truthy value (an empty text or a deadline of 0 keeps the old one); oaLink, referralUsed and notes take any value sent; owner, stages and appliedDate never change; an unknown truthy status fails validation; well-formedness is kept |
| ApplicationController.UpdateIdempotent | server/controllers/applicationController.js:70-76 | applying the same update twice saves the same record as applying it once |
| ApplicationController.EmptyUpdateIsIdentity | server/controllers/applicationController.js:70-76 | an update that sends nothing leaves the record unchanged |
| ApplicationController.EmptyValuesUnderBothRules | server/controllers/applicationController.js:70-75 | an empty companyName, role or status keeps the old value, while an empty oaLink or notes and a false referralUsed overwrite it |
| ApplicationController.DerivedStatus | server/controllers/applicationController.js:116-117 | a stage named "offer" in any case makes the status offer; otherwise a rejected stage makes it rejected; otherwise it is unchanged |
| ApplicationController.OfferWinsOverRejected | server/controllers/applicationController.js:116-117 | a rejected stage named "Offer" leaves the application at offer |
| ApplicationController.StageAppended | server/controllers/applicationController.js:102-119 | a missing stage name fails; otherwise exactly one validated stage is appended at the end, dated with the sent date or, when that is absent or 0, the current time; earlier stages kept, the status set by the derived-status rule and every other field unchanged |
| ApplicationController.ApplicationStore.List | server/controllers/applicationController.js:4-39 | the handler returns the page the list query defines, without changing the store |
| ApplicationController.ApplicationStore.Create | server/controllers/applicationController.js:41-54 | exactly one new record under a fresh id, built by the schema; a validation failure changes nothing |
| ApplicationController.ApplicationStore.Update | server/controllers/applicationController.js:56-80 | 404 for an absent id and 403 for another owner, the store unchanged in both; otherwise only that record is replaced by the merge |
| ApplicationController.ApplicationStore.Delete | server/controllers/applicationController.js:82-98 | 404 for an absent id and 403 for another owner, the store unchanged; otherwise exactly that record is removed |
| ApplicationController.ApplicationStore.AppendStage | server/controllers/applicationController.js:100-124 | 404 for an absent id; otherwise any caller's stage is appended, with the sent date or the current time when the date is absent or 0, and with the derived status, and a failure changes nothing |
| ApplicationController.DeletedNeverListed | server/controllers/applicationController.js:96-97 | after a delete the record is in no listing, and the caller's total drops by one exactly when it matched |
| ApplicationController.OfferScenario | server/controllers/applicationController.js:113-117 | a new Google/SWE application is applied, stays applied after a cleared "Technical Round", and becomes offer after a pending "Offer" stage |
| ApplicationController.KnownStageKeepsStatus | server/controllers/applicationController.js:107-117 | a stage with a non-empty name other than "offer" and a known status other than "rejected" is appended as one more stage and leaves the status unchanged |
| ApplicationController.ClearedRoundKeepsStatus | server/controllers/applicationController.js:107-117 | appending a cleared "Technical Round" stage succeeds, adds one stage and leaves the status unchanged |
| ApplicationController.SentZeroDateStoresNow | server/controllers/applicationController.js:107-111 | a stage sent with date 0 is stored with the current time, exactly as one sent without a date |
| ApplicationController.OfferStageMakesOffer | server/controllers/applicationController.js:107-117 | appending a pending "Offer" stage succeeds, adds one stage and sets the status to offer, whatever it was |
| UserController.EmailHolder | server/controllers/userController.js:23 | findOne by email returns a user holding that email, or none exists |
| UserController.TokenHolder | server/controllers/userController.js:179 | findOne by refresh token returns a user holding that token, or none exists |
| UserController.RegisterStep | server/controllers/userController.js:20-73 | a taken email is refused with nothing created; otherwise one new user with the default role and a hashed password, holding the refresh token set in the cookie, and the reply echoes its profile |
| UserController.LoginStep | server/controllers/userController.js:75-104 | success only for the user with that email and a matching password, whose profile (id, name, email, role) is returned and whose stored refresh token alone is replaced by the new one; any failure is 401 with the table unchanged |
| UserController.LogoutStep | server/controllers/userController.js:172-191 | 204 and no change without a cookie or when nobody holds the token; otherwise exactly the holder's token is cleared |
| UserController.RefreshOutcome | server/controllers/userController.js:193-214 | 401 exactly without a cookie; a new access token only for a verified token stored for its own subject; every other failure is 403 |
| UserController.ChangePasswordStep | server/controllers/userController.js:142-170 | the checks in order: 400 without both fields, then 400 for a new password shorter than 6, then 404 for a missing user, then 401 for a wrong current password; the password is replaced iff all pass, and a failure changes nothing |
| UserController.UpdateUserStep | server/controllers/userController.js:121-140 | 404 for a missing user; for an existing one the update succeeds iff no other user holds the merged email, and otherwise fails only on the unique email; name and email change only for a non-empty value, skills whenever a list is sent; nothing else changes |
| UserController.RefreshSucceedsIff | server/controllers/userController.js:201-209 | with tokens owned by their subjects, refresh succeeds iff the cookie is verified and still stored for its subject |
| UserController.LoginSucceedsIff | server/controllers/userController.js:78-103 | login succeeds iff some user has the email and the password matches; an unknown email and a wrong password get the same reply |
| UserController.LogoutReleasesToken | server/controllers/userController.js:179-187 | after logout no user holds the token any longer |
| UserController.LogoutIdempotent | server/controllers/userController.js:172-190 | a second logout with the same cookie is 204 and changes nothing |
| UserController.LoggedOutTokenCannotRefresh | server/controllers/userController.js:172-206 | a refresh token cleared by logout is refused with 403, whatever its signature, after any later sequence of requests that does not issue the same token again |
| UserController.LoginThenRefresh | server/controllers/userController.js:81-85 | the refresh token a login sets obtains access tokens for that user |
| UserController.RegisterThenLogin | server/controllers/userController.js:29-40 | a user who has just registered can log in with the same email and password |
| UserController.ChangePasswordThenLogin | server/controllers/userController.js:165-167 | after a change the new password logs in and a different old one does not |
| UserController.UpdateKeepsUniqueEmails | server/controllers/userController.js:124-136 | a successful profile update keeps emails unique |
| UserController.UpdateThenLogin | server/controllers/userController.js:124-136 | after a profile update the account logs in under its merged email exactly with its unchanged password, and the reply shows the updated profile |
| UserController.UpdateUserIdempotent | server/controllers/userController.js:124-136 | sending the same profile update again changes nothing and returns the same account |
| UserController.Issued | server/controllers/userController.js:12-16 | only a register or login sets a refresh token, signed as a refresh token with the request's time in whole seconds |
| UserController.ReplaceKeepsConsistent | server/controllers/userController.js:84-85 | replacing one user by a record with the same email and an owned token, or none, keeps the table consistent |
| UserController.RegisterKeepsConsistent | server/controllers/userController.js:23-40 | a registration keeps ids below the next id, emails unique and tokens owned |
| UserController.ServeKeepsConsistent | server/controllers/userController.js:20-214 | every request keeps the user table consistent, and the next id never decreases |
| UserController.RunKeepsConsistent | server/controllers/userController.js:20-214 | any sequence of requests keeps the user table consistent |
| UserController.ServeKeepsReleased | server/controllers/userController.js:20-214 | a request that does not issue a token nobody holds leaves it held by nobody |
| UserController.RunKeepsReleased | server/controllers/userController.js:20-214 | a token nobody holds stays so through any requests that do not issue it again |
| UserController.OtherSecondsNeverReissue | server/controllers/userController.js:12-16 | requests whose registers and logins all fall in other seconds than the token's never issue it again |
| UserController.SameSecondLoginRevives | server/controllers/userController.js:12-16 | logging in again within the same second re-creates the refresh token a logout cleared, which then obtains access tokens again |
| UserController.UserStore.Register | server/controllers/userController.js:20-73 | the handler's reply and new table are the register step's, and the table invariant is kept |
| UserController.UserStore.Login | server/controllers/userController.js:75-104 | the handler's reply and new table are the login step's, and the invariant is kept |
| UserController.UserStore.Logout | server/controllers/userController.js:172-191 | the handler's reply and new table are the logout step's, and the invariant is kept |
| UserController.UserStore.RefreshAccessToken | server/controllers/userController.js:193-214 | the handler's reply is the refresh outcome and the table is not changed |
| UserController.UserStore.ChangePassword | server/controllers/userController.js:142-170 | the handler's reply and new table are the change-password step's |
| UserController.UserStore.UpdateUser | server/controllers/userController.js:121-140 | the handler's reply and new table are the update step's, and the invariant is kept |
| UserController.UserStore.GetMe | server/controllers/userController.js:106-119 | 404 iff the caller is missing, otherwise their profile and skills |
| FeedbackAction.ParseCategory | reviewradar/app/actions/feedback.ts:11 | only the five category names are accepted |
| FeedbackAction.ToNumber | reviewradar/app/actions/feedback.ts:12 | Number() of a form field: null and blank text give 0 |
| FeedbackAction.TitleIssues | reviewradar/app/actions/feedback.ts:9 | the title passes iff it is a string of length at least 1; the empty string gets "Title is required" |
| FeedbackAction.DescriptionIssues | reviewradar/app/actions/feedback.ts:10 | the description passes iff it is a string of length at least 10; a shorter one gets the schema's message |
| FeedbackAction.CategoryIssues | reviewradar/app/actions/feedback.ts:11 | the category passes iff it is one of the five names |
| FeedbackAction.RatingIssues | reviewradar/app/actions/feedback.ts:12 | the rating passes iff its number lies in 1..5; an absent field counts as 0 and is too small |
| FeedbackAction.Validate | reviewradar/app/actions/feedback.ts:8-13 | the form is valid iff all four field rules pass, and then yields those values; otherwise each field's error list is empty exactly when that field passed |
| FeedbackAction.HiddenRatingRoundTrip | reviewradar/components/feedback-form.tsx:104 | a star count of 0..5 written into the hidden input is read back by Number() unchanged |
| FeedbackAction.NoStarIsRefused | reviewradar/app/actions/feedback.ts:12 | a form sent without choosing a star is always refused with a too-small rating |
| FeedbackAction.ChosenStarPasses | reviewradar/app/actions/feedback.ts:12 | any chosen star from 1 to 5 passes the rating rule |
| FeedbackAction.Reply | reviewradar/app/actions/feedback.ts:26-75 | not signed in gives the login message; an invalid form gives the field errors; success iff signed in, valid and the insert went through; an insert failure gives the retry message |
| FeedbackAction.FeedbackTable.CreateFeedback | reviewradar/app/actions/feedback.ts:51-67 | exactly one row is inserted, and only on success: the validated fields, sentiment "Pending" and the caller's id; otherwise the table is unchanged |
| Middleware.Decide | reviewradar/middleware.ts:8-38 | a path the matcher skips passes; otherwise sign-in iff a protected path without a user, and a signed-in caller passes admin paths iff admin, analyst paths iff analyst or admin; user paths and unprotected paths always pass a signed-in caller |
| Middleware.RouteFamiliesDisjoint | reviewradar/middleware.ts:4-6 | no path lies in two of the three prefix families |
| Middleware.AccessNests | reviewradar/middleware.ts:19-25 | every path open without a role is open to a user, every path open to a user is open to an analyst, and every one open to an analyst is open to an admin |
| Middleware.PlainPathRuns | reviewradar/middleware.ts:31-38 | the middleware runs on a path with a leading slash, no `_` after it and no dot |
| Middleware.RoutesIgnoreCase | reviewradar/middleware.ts:4-6 | a path lies in a route family iff its lower-cased form does |
| Middleware.MixedCaseAdminPathGuarded | reviewradar/middleware.ts:4-21 | "/Dashboard/Admin" is an admin path: signed out it goes to sign-in, and an analyst is sent home |
| Middleware.CsvFileSkipped | reviewradar/middleware.ts:31-38 | a path with a dot starting ".csv" and no '?' is skipped by the matcher, unless it is under /api or /trpc |
| Middleware.StaticFileUnderAdminPasses | reviewradar/middleware.ts:31-38 | "/dashboard/admin/export.csv" is in the admin family, yet the matcher skips it, so it passes without a signed-in caller |
| DashboardLayout.Badge | reviewradar/app/dashboard/layout.tsx:26 | the badge shows the role's name, and "Guest" exactly when there is no role |
| DashboardLayout.Links | reviewradar/app/dashboard/layout.tsx:35-45 | User View iff user, analyst or admin; Analyst View iff analyst or admin; Admin View iff admin; no link twice |
| DashboardLayout.LinksNest | reviewradar/app/dashboard/layout.tsx:35-45 | the admin link implies the analyst link, which implies the user link |
| DashboardLayout.LinksMatchMiddleware | reviewradar/app/dashboard/layout.tsx:35-45 | the analyst and admin links are shown iff the middleware passes that role to their targets, and no shown link is redirected |
| DashboardLayout.RolelessReachesUnlinkedUserView | reviewradar/app/dashboard/layout.tsx:35-37 | a signed-in caller without a role sees no User View link yet passes the middleware to it |
| DashboardLayout.PageGuardsAgree | reviewradar/app/dashboard/admin/page.tsx:7-9 | on every path of their family that the middleware runs on, the admin and analyst pages' own guards admit exactly the roles the middleware passes |
| ProfilePage.AddSkill | SmartTrack/client/src/pages/Profile.jsx:65-73 | the trimmed input is appended and the input cleared iff it is non-empty and not yet listed; otherwise nothing changes |
| ProfilePage.AddSkillKeepsNoDuplicates | SmartTrack/client/src/pages/Profile.jsx:66-70 | a duplicate-free list stays duplicate-free, and what is added is the trimmed non-empty input |
| ProfilePage.RemoveSkill | SmartTrack/client/src/pages/Profile.jsx:75-80 | the removed skill no longer occurs, every other listed skill stays, only listed skills remain, and a skill not listed changes nothing |
| ProfilePage.RemoveDistributes | SmartTrack/client/src/pages/Profile.jsx:78 | removal works element by element, so the kept skills stay in their order |
| ProfilePage.AddThenRemove | SmartTrack/client/src/pages/Profile.jsx:65-80 | removing a skill just added restores the list |
| ProfilePage.CheckPasswordForm | SmartTrack/client/src/pages/Profile.jsx:84-93 | a mismatch is reported first; the request is sent iff the passwords agree and are at least 6 long |
| ProfilePage.SentFormPassesServerChecks | server/controllers/userController.js:145-151 | a request the form sends, with a current password, is never refused by the server's missing-field or length checks |
| DashboardPage.StatusCounts | SmartTrack/client/src/pages/Dashboard.jsx:137-140 | the table holds an entry exactly for each status on the page, equal to its number of occurrences |
| DashboardPage.OccurrencesSum | SmartTrack/client/src/pages/Dashboard.jsx:137-140 | the four statuses' counts add up to the page length |
| DashboardPage.ChartData | SmartTrack/client/src/pages/Dashboard.jsx:145-150 | four bars in the fixed order Applied, In Progress, Offer, Rejected |
| DashboardPage.ChartShowsPage | SmartTrack/client/src/pages/Dashboard.jsx:145-150 | each bar shows the number of applications on the page with its status (0 when absent), and the bars add up to the page length |
| DashboardPage.Previous | SmartTrack/client/src/pages/Dashboard.jsx:302 | Previous never goes below 1 and otherwise steps back one page |
| DashboardPage.Next | SmartTrack/client/src/pages/Dashboard.jsx:314 | Next never goes past totalPages and otherwise steps forward one page |
| DashboardPage.Controls | SmartTrack/client/src/pages/Dashboard.jsx:299 | the controls are shown iff there is more than one page |
| DashboardPage.PagingStaysInRange | SmartTrack/client/src/pages/Dashboard.jsx:299-323 | from a page in range both buttons stay in range, a button is enabled iff it moves, and Next then Previous (or the reverse) comes back |
| DashboardPage.SearchChanged | SmartTrack/client/src/pages/Dashboard.jsx:197 | a new search text resets to page 1 and keeps the filter |
| DashboardPage.FilterChanged | SmartTrack/client/src/pages/Dashboard.jsx:205 | a new status filter resets to page 1 and keeps the search text |
| DashboardPage.ServerParamsOfUrl | SmartTrack/client/src/pages/Dashboard.jsx:36-40 | the server reads back from a list URL exactly the parameters it was joined from, values decoded, when none holds '&' or '#' |
| DashboardPage.BuildUrlIsUrl | SmartTrack/client/src/pages/Dashboard.jsx:36-38 | the built URL is the list path joined with page, limit=6, search only when non-empty, and status only when not "all" |
| DashboardPage.AsWrittenFaithfulForPlainText | SmartTrack/client/src/pages/Dashboard.jsx:36-38 | as written, the server gets the intended parameters when the search text and status hold none of '&', '#', '+', '%' |
| DashboardPage.SearchInjectsStatusFilter | SmartTrack/client/src/pages/Dashboard.jsx:37 | as written, searching for `company&status=st` with the filter on "all" makes the server filter by status st, which differs from the intended parameters |
| DashboardPage.UnescapeEscape | SmartTrack/client/src/pages/Dashboard.jsx:37-38 | the server's decoding undoes the escaping of a value |
| DashboardPage.EscapedQueryRoundTrip | SmartTrack/client/src/pages/Dashboard.jsx:36-38 | with the values escaped, the server receives exactly the intended parameters, whatever the texts |
| DashboardPage.EscapePlain | SmartTrack/client/src/pages/Dashboard.jsx:37-38 | escaping leaves a text without special characters unchanged |
| DashboardPage.EscapedAgreesForPlain | SmartTrack/client/src/pages/Dashboard.jsx:36-38 | for search and status texts without special characters, the escaped URL is the URL as written |
| DashboardPage.FetchQuery | SmartTrack/client/src/pages/Dashboard.jsx:36-38 | the query built step by step (values escaped) is read back by the server as exactly the intended parameters, and equals today's URL for plain texts |
| Text.Trim | SmartTrack/client/src/pages/Profile.jsx:66 | trim() is empty iff the text is all white space, and otherwise starts and ends with a non-space |
| Text.TrimIdempotent | SmartTrack/client/src/pages/Profile.jsx:66 | trimming twice is trimming once |
| Text.ToLowerAscii | server/controllers/applicationController.js:117 | lower-casing keeps the length and maps each character on its own |
| Text.Utf16Length | server/controllers/userController.js:149 | a JavaScript string's length is between its number of characters and twice that, and 0 only when empty |

## Left out

- JWT signing, verification and expiry are abstract. A token is `Jwt(subject, issuedAt, kind)`, and whether `jwt.verify` accepts it is the `verified` input of refresh. `issuedAt` is the `iat` claim: the request time in whole seconds. Signing is deterministic, so a login within the same second as an earlier one re-creates the earlier refresh token (`SameSecondLoginRevives`).
- bcrypt is abstract: a stored password is `Hashed(plain)`, and matching is equality of hashes.
- The User model file is not part of this model. Two facts about it are assumptions: email is unique (`UniqueEmails`, enforced by a unique index that rejects a clashing save), and a new user's role defaults to student.
- Register's 'Invalid user data' branch (server/controllers/userController.js:70-72) is unreachable: `User.create` either returns a user or throws. It is not modelled.
- Logout stores `''` in the user's refresh token. The model stores `None`. An empty cookie counts as missing, so no cookie can match either value.
- The welcome email, cookies and their attributes, HTTP framing and routing glue are I/O. Replies are modelled as result values.
- The MongoDB `$text` search is the `TextMatch` parameter of the list query. Tokenising and stemming belong to the database.
- ApplicationQuery.List: page and limit are positive integers. The query-string defaults (page 1, limit 10), the `limit * 1` coercion and the raw echo of currentPage are not modelled.
- ApplicationQuery.Sort: documents that tie under the sort key keep the ascending-id scan order. The database leaves that order unspecified, and may order ties differently from one page request to the next. `SortedResultIsOrdered` shows that without ties the database has no other order to return.
- ApplicationQuery.EveryMatchListed holds only when no two matching documents tie under the sort key (`UniqueSortKeys`). With ties a document may be missed by every page.
- ApplicationQuery.PageOfPosition holds only when no two matching documents tie under the sort key (`UniqueSortKeys`).
- ApplicationQuery.ListedOnOnePage holds only when no two matching documents tie under the sort key (`UniqueSortKeys`). With ties a document may be listed on two pages.
- Text.ToLowerAscii lower-cases only the ASCII letters A-Z. Other upper-case letters are left as they are, whereas JavaScript's toLowerCase maps them too.
- FeedbackAction.ToNumber reads blank text, and decimal literals with an optional sign, point and fraction. Exponents, hexadecimal, binary and octal literals and `Infinity` are not modelled; they are taken as not numbers.
- FeedbackAction.RatingIssues: zod's issue messages are represented by issue kinds (`InvalidType`, `TooSmall`, `TooBig`, `InvalidEnumValue`). The schema's own messages are kept as text.
- The feedback rating is a real number, not a binary floating-point value. Clerk sessions and the Prisma client are foreign calls. Their results (`userId`, whether the insert throws) are inputs.
- `revalidatePath` after an insert is a cache side effect and is not modelled.
- ApplicationController.DeadlineOrKeep and ApplicationController.DateOrNow treat a date as milliseconds since the epoch, so only 0 is falsy. Date strings and cast errors are not modelled.
- Middleware.MiddlewareRuns matches the `config.matcher` patterns case-sensitively, as Next.js runs them. The path is the decoded pathname. basePath, locales and the rewriting of `/_next/data` requests are not modelled.
- Dates and `Date.now()` are inputs (`now`). Each handler is atomic; concurrent requests are not modelled.
- ApplicationController.ApplicationStore.AppendStage: there is no owner check, and the offer-name check runs after the rejected check. Both are as in the code.
- UserController.RefreshOutcome states the success condition in one direction only. The converse needs the table invariant, and `RefreshSucceedsIff` proves it.
- DashboardPage.ServerParams models the server's query parsing only as far as the list URL needs it. It splits at '&' and reads each pair at its first '='. Values decode '+' and the escapes `%25`, `%26`, `%2B` and `%23`. Escapes of other characters, repeated keys and array syntax are not modelled.
- Rendering, the chart library and the statistics cards are not modelled. The counts and bars they show are.

## Findings

| source | as written | input that shows it | evidently intended | confidence | as-written member | corrected member |
|---|---|---|---|---|---|---|
| SmartTrack/client/src/pages/Dashboard.jsx:36-38 | the search text and the status are pasted into the query string without escaping | search text "Google&status=offer" with the filter on "all": the server reads search=Google and status=offer, a filter the user never chose | each value escaped with encodeURIComponent, so the server reads exactly the typed search text | high, derived by proof, not executed | DashboardPage.SearchInjectsStatusFilter | DashboardPage.EscapedQueryRoundTrip |
