# Village portal: access rules and record lifecycles

This project models the server of a village information portal. The portal
serves residents (`warga`), operators, admins and super admins. It covers:

- accounts: registration, login, token refresh, profile, password and role
  changes;
- the two request gates: `authenticateToken` turns a bearer token into the
  identity of a live, active user, and `authorizeRoles` admits listed roles only;
- complaints: filing with attachments, staff status changes, and rating by the
  owner;
- announcements: publication now or on a schedule, editing, deleting, and the
  public list;
- the document library: upload, the public list, counted downloads, deleting;
- the photo gallery: one item per uploaded image;
- the upload middleware: destination directory, stored name, file filter, and
  size and count limits;
- the browser's route guard (`ProtectedRoute`) and its route table. The router
  matches a path ignoring letter case and trailing slashes.

Each table is a `map<Id, Row>` field of a class. Each route handler is a method
that takes the identity the gates attached, applies its role gate first, and
then checks what the handler checks, in the same order. Each method states the
new table and the reply for every outcome, error replies included. The pure
parts are functions with named results:

- request-body schemas, as a list of rules checked in declaration order;
- row construction;
- visibility and filter predicates;
- sort keys, windows and page counts.

Lemmas relate these parts to each other and to the server's guarantees.

Foreign services are ideal oracles:

- bcrypt is a `Digest`. It matches exactly the plaintexts whose bcrypt key
  equals that of the plaintext it was made from. The key is the first 72 bytes
  of the UTF-8 encoding plus a zero byte, repeated;
- signed tokens are a `Ledger` from token text to the grant signed. A token
  verifies with the key it was signed with until its lifetime ends.

Schema lengths (`.min`, `.max`) count UTF-16 code units, as JavaScript strings
do, so a character outside the Basic Multilingual Plane counts twice.

The clock, generated ids, bcrypt salts, UUIDs and token texts are parameters.
Listings do not fix the order of rows with equal sort keys. A page is therefore
specified by `Paging.IsPage`: some arrangement of the candidate rows in sort
order, cut to the window `OFFSET (page - 1) * limit LIMIT limit`.

The code behaves as follows where one might expect otherwise, and the model
follows the code:

- A file part sent with an empty file name, as an empty file input of a form
  sends, is drained by the parser without filtering or storing it. It still
  counts toward the limit of 5 file parts (`Upload.UnnamedPartsSkipped`).
- A rating is not limited to one. Rating a resolved complaint again overwrites
  the first rating (`Complaints.RateTwice`).
- Status changes are allowed from any state, including `resolved` and
  `rejected`.
- The duplicate-email check at registration compares emails exactly, with case.
- The gate reads the identity from the current users row, not from the token.
  A role change therefore takes effect on the next request.
- The category and search filters of the announcement list, and the category
  filter of the gallery list, are not working filters. Their SQL compares the
  column with a bare number instead of a parameter, so the store rejects the
  query and the reply is a 500.

## Model

| member | source | states |
|---|---|---|
| Foundation.ParseRole | server/routes/users.ts:143-146 | a role value is accepted exactly when it is one of the four role names, and the parsed role has that name |
| Foundation.ParsePriority | server/routes/complaints.ts:15 | a priority value is accepted exactly when it is `low`, `normal` or `high` |
| Foundation.Utf16Length | server/routes/complaints.ts:10-16 | the length the validator counts lies between the number of characters and twice that number; a single character counts two units exactly when it lies outside the Basic Multilingual Plane |
| Foundation.Utf16LengthOfPlain | server/routes/complaints.ts:10-16 | the validator's length equals the number of characters exactly when no character lies outside the Basic Multilingual Plane |
| Foundation.Utf16LengthAppend | server/routes/complaints.ts:10-16 | the length of a concatenation is the sum of the lengths of its parts, so with the one-character case the length of every text is fixed |
| Foundation.Utf16LengthOfAstral | server/routes/complaints.ts:10-16 | a text of astral characters only, such as three emoji, counts two units per character |
| Foundation.FirstFailing | server/routes/complaints.ts:74-77 | the schema reports no key exactly when every rule passes; otherwise it reports a failing key, and every rule before that key passes |
| Foundation.Validate | server/routes/complaints.ts:74-77 | the schema check replies nothing exactly when the body passes; otherwise it replies 400 naming a key whose rule fails |
| Text.Split | server/middleware/auth.ts:21 | `split(' ')` yields at least one field, and no field contains the separator |
| Text.JoinSplit | server/middleware/auth.ts:21 | joining the fields of a split with the separator gives back the original text |
| Text.SplitAfterWord | server/middleware/auth.ts:21 | a word, the separator and a rest split into that word followed by the fields of the rest |
| Text.Lower | server/middleware/upload.ts:32 | lower-casing keeps the length and maps every character on its own |
| Text.LexLessTotal | server/routes/complaints.ts:52 | text order is total on different texts |
| Text.LexLessTransitive | server/routes/complaints.ts:52 | text order is transitive |
| Text.ILikeFindsExact | server/routes/users.ts:38-46 | the case-insensitive substring search finds every exact occurrence of the search text |
| Paging.PriorityRank | server/routes/complaints.ts:52 | each priority has a rank below 3 |
| Paging.PriorityRankIsTextOrder | server/routes/complaints.ts:52 | comparing ranks is comparing the stored priority strings, so `priority DESC` lists normal, then low, then high |
| Paging.InsertDescending | server/routes/complaints.ts:52 | inserting a row into a listing sorted by `<rank> DESC, created_at DESC` keeps it sorted |
| Paging.Arrange | server/routes/complaints.ts:52 | the rows of a query, taken one at a time, are arranged in sort order, each exactly once |
| Paging.Window | server/routes/complaints.ts:52 | `LIMIT limit OFFSET offset` holds at most `limit` rows, namely the rows from `offset` on, in order |
| Paging.PageRows | server/routes/complaints.ts:52 | every row of a page is a candidate row, a page holds at most `limit` rows, and no row precedes an earlier one |
| Paging.FirstPageHoldsAll | server/routes/complaints.ts:52 | a first page at least as long as the candidate set holds every candidate row |
| Paging.Bounds | server/routes/complaints.ts:20-21 | the offset is `(page - 1) * limit`; a negative limit or offset makes the store fail with 500 |
| Paging.PageCount | server/routes/announcements.ts:66 | `ceil(total / limit)` is the least page count covering `total` rows, and is null for a zero limit |
| Upload.Destination | server/middleware/upload.ts:7-20 | fields `documents`, `gallery` and `complaints` go to their own directories; every other field goes to `uploads/misc/` |
| Upload.LastIndexOf | server/middleware/upload.ts:23 | the last position of a character, or none exactly when it does not occur |
| Upload.Basename | server/middleware/upload.ts:23 | the final path component: the suffix of the name that contains no `/` and is either the whole name or preceded by a `/` |
| Upload.Extname | server/middleware/upload.ts:23 | the extension is a suffix of the final component that starts with its only dot; it is non-empty exactly when the final component is not `..` and has a dot after its first character |
| Upload.StoredName | server/middleware/upload.ts:22-25 | the stored name is the UUID followed by the client's extension, and contains no `/`, so the file stays in its destination directory |
| Upload.StoredNameKeepsExtension | server/middleware/upload.ts:22-25 | the stored name, a UUID followed by the original extension, has the same extension as the client's file name |
| Upload.FileFilter | server/middleware/upload.ts:28-56 | a `documents` file is accepted exactly when both its lower-cased extension and its mimetype contain a document token; a `gallery` or `complaints` file likewise with image tokens; each rejection carries its branch's message; any other field is refused with 'Invalid field name' |
| Upload.PlainTextRefused | server/middleware/upload.ts:31-36 | a file sent as `text/plain` is refused under every field, even though `txt` is a document token |
| Upload.Store | server/middleware/upload.ts:6-25 | a stored file keeps the client's field, name, type and size, and lies in its field's directory under its stored name |
| Upload.Screen | server/middleware/upload.ts:58-60 | each file part of a request carries the file filter's verdict on it, in order |
| Upload.Kept | server/middleware/upload.ts:58-65 | the parser keeps at most as many parts as were sent, and keeps them all when every part has a file name |
| Upload.KeptMembers | server/middleware/upload.ts:58-65 | the kept parts are exactly the parts sent with a non-empty file name |
| Upload.KeptOfUnnamed | server/middleware/upload.ts:58-65 | a request whose parts all lack a file name keeps none of them |
| Upload.AbortCause | server/middleware/upload.ts:58-65 | a named part that is not acceptable aborts with 'unexpected file' exactly when it is under another field or past the route's count; a refusal carries the filter's own message; 'too large' only for an accepted file over the size limit; never 'too many files' |
| Upload.FirstAbort | server/middleware/upload.ts:58-65 | the parser finds no reason to abort exactly when all parts fit the per-request count of 5 and every named part, in order, comes under the route's field and count, passes the filter and is within the size limit; 'too many files' only when more than 5 parts are sent |
| Upload.Admit | server/middleware/upload.ts:58-65 | a request is admitted exactly when it has at most 5 file parts and every named part is acceptable at its position among the named parts; an admitted request keeps the named parts, at most 5 and at most the route's count, each stored in order under its own UUID |
| Upload.AdmittedFilesBelong | server/middleware/upload.ts:58-65 | every admitted file was a part of the request with a file name, came under the route's field, passed the filter, is at most 10 MiB and lies in its field's directory |
| Upload.UnnamedPartsSkipped | server/middleware/upload.ts:58-65 | up to 5 parts without a file name, as an empty file input sends, are admitted as no files at all |
| Upload.GalleryCappedByRequestLimit | server/middleware/upload.ts:63 | the gallery route asks for 10 files, but an admitted gallery upload has at most 5 parts |
| Credentials.Hash | server/routes/auth.ts:42-44 | the stored digest matches the password it was made from, and exactly those other passwords with the same bcrypt key |
| Credentials.Matches | server/routes/auth.ts:111 | `bcrypt.compare` accepts at least the password the digest was made from; with Credentials.Hash and the key lemmas, exactly the passwords with the same 72-byte key |
| Credentials.Utf8Append | server/routes/auth.ts:44 | the UTF-8 bytes of a concatenation are the bytes of its parts, in order |
| Credentials.KeyOfLongPassword | server/routes/auth.ts:44 | whatever follows the first 72 bytes of a password leaves its bcrypt key unchanged |
| Credentials.KeyOfShortPassword | server/routes/auth.ts:44 | a password shorter than 72 bytes appears whole in its key, followed by the zero byte |
| Credentials.LongPasswordsCollide | server/routes/auth.ts:111 | two passwords sharing their first 72 bytes match each other's digest, so login accepts either |
| Credentials.IdentityOf | server/middleware/auth.ts:41-46 | the attached identity carries the row's id, email, role and full name |
| Credentials.AccessGrant | server/routes/auth.ts:56-60 | an access token carries user id, email and role, is signed with the access key, and lives 3600 seconds |
| Credentials.RefreshGrant | server/routes/auth.ts:62-66 | a refresh token carries the user id only, is signed with the refresh key, and lives 604800 seconds |
| Credentials.Sign | server/routes/auth.ts:56-60 | signing records the new token and leaves every earlier token as it was |
| Credentials.SignPair | server/routes/auth.ts:55-66 | login and registration record exactly an access token and a refresh token for the row |
| Credentials.SignThenVerify | server/middleware/auth.ts:27 | a new token verifies with its own key until it expires and never with the other key; other tokens verify as before |
| Credentials.Verify | server/middleware/auth.ts:27 | a token verifies exactly when it was signed with the key given and its lifetime has not ended, and then yields the claims it was signed with |
| Credentials.KindsDoNotMix | server/routes/auth.ts:154 | a refresh token is never accepted as an access token, and an access token never as a refresh token |
| Credentials.AccessTokenLifetime | server/routes/auth.ts:56-60 | an access token is accepted exactly during the hour after it was issued |
| AuthGate.BearerToken | server/middleware/auth.ts:20-25 | the token is the second space-separated field of the header, when that field exists and is non-empty |
| AuthGate.BearerTokenOfHeader | server/middleware/auth.ts:21 | any scheme word, one space and a token yield that token; the scheme is not checked |
| AuthGate.OneWordHeaderHasNoToken | server/middleware/auth.ts:21-25 | a header of one word carries no token |
| AuthGate.Authenticate | server/middleware/auth.ts:14-52 | no token gives 401; a token that fails verification gives 403; a verified token whose user is missing or inactive gives 401; otherwise the request proceeds with the identity of the user's current row |
| AuthGate.IdentityFromCurrentRow | server/middleware/auth.ts:31-46 | a user whose role changed after the token was issued proceeds with the new role |
| AuthGate.DeactivatedUserRejected | server/middleware/auth.ts:37-39 | a deactivated user is refused with 401 while their token is still valid |
| AuthGate.RefreshTokenRefused | server/middleware/auth.ts:27 | a refresh token presented to the gate is refused with 403 |
| AuthGate.AuthorizedMonotone | server/middleware/auth.ts:54-60 | listing more roles never turns away a request that fewer roles admit |
| AuthGate.RoleGate | server/middleware/auth.ts:54-60 | the role gate replies nothing exactly when the caller's role is listed, and 403 'Insufficient permissions' otherwise |
| AuthGate.Request.AuthenticateToken | server/middleware/auth.ts:14-52 | on success the identity is attached and `next` is called once; on failure the gate's error is the reply and the identity is left alone |
| AuthGate.Request.AuthorizeRoles | server/middleware/auth.ts:54-60 | `next` is called exactly when an identity is attached and its role is listed; otherwise the reply is 403 |
| AuthGate.Guard | server/middleware/auth.ts:14-60 | a request passes both gates exactly when authentication succeeds with a listed role, and then its identity is an active user of the table |
| Accounts.RegisterRules | server/routes/auth.ts:11-17 | registration requires an email of address shape, a password of at least 8 characters and a full name of at least 2; phone and address may be absent but not empty |
| Accounts.LoginRules | server/routes/auth.ts:19-22 | login requires an email of address shape and a non-empty password |
| Accounts.ProfileRules | server/routes/users.ts:10-14 | the profile update requires a full name of 2 to 255 characters; phone and address may be absent but not empty |
| Accounts.PasswordRules | server/routes/users.ts:16-19 | a password change requires the current password and a new one of at least 8 characters |
| Accounts.NewUser | server/routes/auth.ts:42-51 | a registered row is an active `warga` account whose digest matches exactly the passwords with the same bcrypt key as the one given |
| Accounts.ListedUsersMatch | server/routes/users.ts:32-49 | every listed user is a row that passes the search and role filters, shown without its password |
| Accounts.Me | server/routes/auth.ts:181-183 | `/auth/me` replies with an identity exactly when the auth gate lets the request through, and then with the gate's identity: the current row of an active user; otherwise with the gate's own 401 or 403 |
| Accounts.UserStore.Register | server/routes/auth.ts:25-82 | an invalid body gives the schema's 400, and a taken email gives 'Email already registered'; neither inserts or signs anything; otherwise exactly the new row is inserted, two tokens are signed for it, and the reply holds no password |
| Accounts.UserStore.Login | server/routes/auth.ts:85-143 | an unknown email or a password whose bcrypt key differs from the stored one gives 401 'Invalid credentials', and an inactive account 'Account is deactivated'; these are the only errors after the schema; success signs the pair for the matching active row and changes no user |
| Accounts.UserStore.Refresh | server/routes/auth.ts:146-178 | a missing token gives 401; a token that fails verification gives 403; a missing or inactive user gives 401; success signs one access token for the live row, and that token passes the auth gate |
| Accounts.UserStore.ListUsers | server/routes/users.ts:22-64 | only admin and super admin may list; a page is a window of the matching rows, newest first, 20 per page by default, without passwords |
| Accounts.UserMatches | server/routes/users.ts:38-46 | a user is listed exactly when the search, if given and non-empty, occurs in the full name or email ignoring case, and the role filter, if given and non-empty, names the user's role; absent filters match everyone |
| Accounts.SearchFindsExactPiece | server/routes/users.ts:38-46 | a user whose full name or email contains the search text, in its own case, is found |
| Accounts.RoleFilterFindsRole | server/routes/users.ts:43-46 | filtering by a user's own role name finds that user |
| Accounts.SearchIgnoresCase | server/routes/users.ts:38-41 | two searches that differ only in letter case find the same users |
| Accounts.UserStore.UpdateProfile | server/routes/users.ts:67-95 | only the caller's own row changes, and only its name, phone, address and update time |
| Accounts.UserStore.ChangePassword | server/routes/users.ts:98-133 | an invalid body gives the schema's 400, and a wrong current password gives 400; neither changes anything; the change succeeds exactly when the body is valid, the caller's row exists and the current password matches, and then only the caller's digest (one of the new password) and update time change |
| Accounts.UserStore.UpdateRole | server/routes/users.ts:136-168 | only a super admin may change roles; an unknown role gives 400 and an unknown user 404, neither changing anything; the change succeeds exactly for a super admin, a known role and an existing user, and then only that user's role and update time change |
| Accounts.RegisterThenLogin | server/routes/auth.ts:25-143 | a resident who has just registered logs in with the same email and password, as a `warga` |
| Complaints.ParseStatus | server/routes/complaints.ts:116-119 | a status value is accepted exactly when it is one of the four state names |
| Complaints.ComplaintRules | server/routes/complaints.ts:10-16 | a complaint needs a title of 5 to 255 characters, a description of at least 10 and a category; location, if present, must be non-empty; priority, if present, must be low, normal or high |
| Complaints.PriorityOf | server/routes/complaints.ts:15 | the priority defaults to `normal` |
| Complaints.AttachmentsOf | server/routes/complaints.ts:82-87 | the attachments are the uploaded files in order, each with its name, original name, path and size |
| Complaints.NewComplaint | server/routes/complaints.ts:79-96 | a new complaint is owned by the caller, `submitted`, unassigned, unanswered and unrated |
| Complaints.ListingRules | server/routes/complaints.ts:19-55 | every listed complaint passes the filters and may be seen by the caller, so a resident sees only their own; the list is ordered by priority text descending, then newest first |
| Complaints.ComplaintDesk.Create | server/routes/complaints.ts:70-106 | an invalid body gives the schema's 400 and inserts nothing; otherwise exactly the new complaint is inserted |
| Complaints.ComplaintDesk.List | server/routes/complaints.ts:19-67 | a reply is a page of the complaints the caller may see that pass the filters, 10 per page by default |
| Complaints.ComplaintDesk.UpdateStatus | server/routes/complaints.ts:109-143 | only admin and super admin may change a status; an unknown status gives 400 and an unknown id 404, neither changing anything; the change succeeds exactly for staff, a known status and an existing id, whatever the current state, including `resolved` and `rejected`, and rewrites exactly status, response, assignee and update time |
| Complaints.ComplaintDesk.Rate | server/routes/complaints.ts:146-178 | a missing, zero or out-of-range rating gives 400; the rating is stored exactly when the complaint exists, is the caller's and is resolved, otherwise the reply is 404; success rewrites exactly rating, feedback and update time, and a stored rating stays within 1..5 |
| Complaints.RateTwice | server/routes/complaints.ts:159-164 | an owner can rate a resolved complaint twice, and the second rating replaces the first |
| Announcements.ParseCategory | server/routes/announcements.ts:12 | a category value is accepted exactly when it is `urgent`, `info` or `event` |
| Announcements.AnnouncementRules | server/routes/announcements.ts:9-15 | an announcement needs a title of 3 to 255 characters and content of at least 10; category and priority, if present, must come from their lists |
| Announcements.CategoryOf | server/routes/announcements.ts:12 | the category defaults to `info` |
| Announcements.PriorityOf | server/routes/announcements.ts:13 | the priority defaults to `normal` |
| Announcements.NewAnnouncement | server/routes/announcements.ts:84-101 | with a schedule, a new announcement is `scheduled` and unpublished; without one, it is `published` now; the author is the caller |
| Announcements.CreatedVisibility | server/routes/announcements.ts:29 | an announcement created without a schedule is publicly visible; one created with a schedule never is |
| Announcements.TotalCoversVisible | server/routes/announcements.ts:49 | the reported total counts every published row, so it is at least the number of publicly visible rows |
| Announcements.Board.List | server/routes/announcements.ts:18-72 | a category or search parameter gives 500; otherwise the reply is a page of the visible rows, and the total counts published rows with `pages = ceil(total / limit)` |
| Announcements.Board.Create | server/routes/announcements.ts:75-112 | only admin and super admin may create; an invalid body gives the schema's 400; otherwise exactly the new row is inserted |
| Announcements.Board.Update | server/routes/announcements.ts:115-151 | only staff may edit; an invalid body gives the schema's 400 and an unknown id 404; the edit succeeds exactly for staff, a valid body and an existing id, and rewrites only title, content, category, priority, schedule and update time; no row's status or publication time changes |
| Announcements.Board.Delete | server/routes/announcements.ts:154-174 | only staff may delete; an unknown id gives 404; the delete succeeds exactly for staff and an existing id, and then exactly that row is removed |
| Announcements.EditKeepsScheduledHidden | server/routes/announcements.ts:131-136 | editing a scheduled announcement leaves it scheduled, so it never reaches the public list |
| Documents.DocumentRules | server/routes/documents.ts:10-15 | a document needs a title of 3 to 255 characters and a category; a description, if present, must be non-empty; `isPublic`, if present, must be a boolean |
| Documents.BooleanOk | server/routes/documents.ts:14 | an absent value passes; a present value passes exactly when it is `true` or `false` in any letter case, so it has 4 or 5 characters |
| Documents.PublicOf | server/routes/documents.ts:14 | a document is public unless the body says `false` |
| Documents.NewDocument | server/routes/documents.ts:81-85 | an inserted document records the caller as uploader and the file's path, size and mimetype, with a download count of 0 |
| Documents.ListingRules | server/routes/documents.ts:18-58 | every listed document is public and passes the category and search filters; newest come first |
| Documents.ListedIffDownloadable | server/routes/documents.ts:29 | a document can be downloaded exactly when the unfiltered public list has it as a candidate |
| Documents.Library.List | server/routes/documents.ts:18-58 | a reply is a page of the public documents that pass the filters, 10 per page by default |
| Documents.Library.Upload | server/routes/documents.ts:61-95 | only admin and super admin may upload; schema failure gives 400 before the file check; a missing file gives 400; neither inserts anything; otherwise exactly the new document is inserted |
| Documents.Library.Download | server/routes/documents.ts:98-125 | a missing or private document gives 404 and no change; otherwise its download count rises by exactly one, nothing else changes, and its file is sent under its title |
| Documents.Library.Delete | server/routes/documents.ts:128-148 | only staff may delete, private documents included; an unknown id gives 404; the delete succeeds exactly for staff and an existing id, and then exactly that row is removed |
| Documents.DownloadTwice | server/routes/documents.ts:116-119 | two downloads raise the counter by two and leave every other row alone |
| Gallery.GalleryRules | server/routes/gallery.ts:10-15 | a gallery upload needs a title of 3 to 255 characters and a category; a description, if present, must be non-empty, and every tag must be a non-empty string |
| Gallery.NewItem | server/routes/gallery.ts:81-87 | every item of an upload shares title, description, category, uploader and tags (default empty) and records its own file |
| Gallery.ListingRules | server/routes/gallery.ts:18-58 | every listed item passes the search; newest come first |
| Gallery.Album.List | server/routes/gallery.ts:18-58 | a category parameter gives 500; otherwise the reply is a page of the matching items, 12 per page by default |
| Gallery.NewItems | server/routes/gallery.ts:81-87 | an upload builds one row per file, in file order, each the row `NewItem` gives for that file and its id |
| Gallery.InsertedExtends | server/routes/gallery.ts:81-89 | inserting the rows under fresh, distinct ids adds exactly those rows, each under its id, grows the table by their number and changes no other row |
| Gallery.InsertedKeyed | server/routes/gallery.ts:81-89 | inserting rows each under its own id keeps every row of the table under its own id |
| Gallery.Album.InsertAll | server/routes/gallery.ts:81-89 | the insertion step returns the rows built for the files, in order, and leaves the table as the old one with those rows inserted under their ids |
| Gallery.Album.Upload | server/routes/gallery.ts:61-99 | only admin and super admin may upload; schema failure gives 400, then no files gives 400, neither inserting anything; otherwise exactly one row per file is inserted under a fresh id, no other row changes, and the reply lists those rows in file order |
| ClientRoutes.ProtectedRoute | src/App.tsx:26-38 | a signed-out visitor goes to `/login`; a signed-in one sees the page when no role is required, or when their role is the required one or `super_admin`, and goes to `/` otherwise |
| ClientRoutes.RouteGuard | src/App.tsx:49-68 | `/complaints` and `/profile` are guarded without a role, `/admin/dashboard` requires `admin`, and the other eight routes are open |
| ClientRoutes.TrimTrailingSlashes | src/App.tsx:49-68 | the trimmed path is a prefix of the path, only slashes were removed, and it no longer ends in a slash unless it is `/` |
| ClientRoutes.Canonical | src/App.tsx:49-68 | the canonical form has the length of the path without its trailing slashes, and each of its characters is the path's character at that position, lower-cased |
| ClientRoutes.CanonicalFixed | src/App.tsx:49-68 | a lower-case path without a trailing slash, as every path of the table is, is its own canonical form |
| ClientRoutes.Visit | src/App.tsx:49-68 | a path reaches the route whose path equals its canonical form; an open route renders its page, a guarded route shows the guard's decision, and a path that reaches no route shows nothing |
| ClientRoutes.TrailingSlashIgnored | src/App.tsx:49-68 | a trailing slash reaches the same route, so `/profile/` is the guarded profile page |
| ClientRoutes.CanonicalIgnoresCase | src/App.tsx:49-68 | paths that differ only in letter case have the same canonical form |
| ClientRoutes.CaseIgnored | src/App.tsx:49-68 | paths that differ only in letter case show the same screen, so `/Profile` is the guarded profile page |
| ClientRoutes.SignedOutVisits | src/App.tsx:29-31 | a signed-out visitor is sent to the login page from exactly the paths that reach the three guarded routes, and sees every other route |
| ClientRoutes.SignedInSuffices | src/App.tsx:54 | the complaints and profile pages show for every signed-in user |
| ClientRoutes.SuperAdminSeesEverything | src/App.tsx:33 | a super admin sees every page of the table |
| ClientRoutes.DashboardMatchesStaffGate | src/App.tsx:59-66 | the dashboard, however spelled, shows for exactly the roles that the server's staff gate admits; operators and residents are sent home |

## Left out

- The React pages, the layout, the API client and the dashboard, events and
  contacts routes. Events and contacts follow the pattern of the document
  routes, and the dashboard only reads aggregate counts.
- Concurrency. Each handler is one atomic step over the tables. The connection
  pool, the `Promise.all` fan-out and the client leaked when verification
  throws are not modelled.
- Store failures other than the modelled ones (a negative window, the broken
  filters, a password change for a vanished user) are not modelled. No gallery
  table is created by server/config/database.ts, so on a database set up by that
  file every gallery query fails. The model assumes the table exists.
- Joined display names (`user_name`, `assigned_name`, `author_name`,
  `uploaded_by_name`) are not modelled. The `pagination` echo of page and limit
  is not modelled either.
- Column widths, foreign keys and unknown ids in `assigned_to` are not checked.
  The document columns `version` and `parent_id`, which no route writes, are not
  modelled.
- Non-integer `page`, `limit` and `rating` values are left out: the non-numeric
  ones, which `Number(...)` turns into NaN, and fractional ones. A fractional
  `page` such as 1.5 with `limit` 10 gives the offset 5 and a real page, and a
  fractional `limit` makes the store fail with 500.
- Complaints.ComplaintDesk.Rate: the rating is an integer. A fractional rating
  such as 2.5 passes the range check of the handler, and the integer column then
  makes the store fail with 500; that reply is not modelled.
- Invalid dates in `scheduledAt` are left out.
- Foundation.Validate: the reply names the first failing field, not the
  validator's message text. Unknown body keys, which the validator refuses, are
  not modelled.
- Accounts.RegisterRules, Accounts.LoginRules: the email rule is a simplified
  address shape, shared by both schemas. It is not the validator's full grammar
  or its top-level-domain list.
- Text.Lower: lower-casing covers ASCII letters only.
- Accounts.UserMatches: `%` and `_` in a search are matched literally, not as
  `ILIKE` wildcards. The same holds for the search of the document and gallery
  lists.
- Upload.Extname: a name that ends in `/` gives an empty extension here, while
  `path.extname` skips trailing separators. The multipart parser strips every
  directory part from the client's file name, so such names do not reach it.
- The stored file is written by disk storage before the handler validates the
  body. Files of rejected requests stay on disk, and the model does not track
  them.
- Credentials.Verify: signatures are ideal, and the two signing keys are
  assumed different. A token stays valid until it expires, because there is no
  revocation.
- Documents.Library.Download: the file transfer itself is I/O. The model
  returns only the path and the download name.
- Documents.BooleanOk: `isPublic` is accepted as `true` or `false` in any letter
  case. This follows the validator's conversion of form strings.
