# Blood donor application: request guards, search query and form checks

A Dafny model of the decision logic in a small blood-donation web application.
An Express server stores donors and blood requests in MySQL. A browser
dashboard registers donors, submits blood requests, edits the user's profile
and searches donors. The model covers the logic that decides what reaches the
datastore and what the dashboard sends:

- **Server routes** (`server.dfy`, module `Server`):
  - `POST /register-donor` and `POST /request-blood` refuse a body in which any
    required field is falsy. Otherwise they hand one parameterised INSERT to
    the datastore.
  - `GET /search-donors` builds its SQL text from a fixed base, adding one
    clause per filter present, and binds one value per clause.
  - `GET /get-requests` runs one fixed SELECT.
  - Each handler is a function of its input (body or query string) and of the
    datastore's reply. Its outcome is the HTTP response plus the list of
    statements executed. The search builder, which the source writes with
    `+=` and `push`, is a method proved equal to the specification functions.
- **SQL text** (`sql.dfy`, module `Sql`): counting `?` slots. It proves that
  every statement a route executes binds exactly one value per slot. No user
  value is ever part of a statement's text.
- **Shared validators** (`validators.dfy`, module `SharedValidators`):
  `validatePhone` and `validateAge` from the shared page script.
- **Patterns** (`patterns.dfy`, module `Patterns`): the anchored regular
  expressions the forms use.
  - `^C{m,n}$` is decided by a matcher that consumes one character per step.
    It is proved equal to "length in [m, n] and every character in class C".
  - The email pattern `^[^\s@]+@[^\s@]+\.[^\s@]+$` has two definitions: its
    language, and a direct test. They are proved equal in both directions.
- **Dashboard** (`dashboard.dfy`, module `Dashboard`):
  - Each form's submit handler up to `fetch`: trimming, `parseInt` of the age,
    the checks, and the PUT/POST routing.
  - The checks return the list of messages they write, one per failing field.
    Every check runs.
  - The search's `URLSearchParams` is a class whose `append` extends its
    entry list.
  - A lemma connects the dashboard's search to the server's search route.
- **JavaScript semantics** (`js_semantics.dfy`, module `JsSemantics`): the
  built-in behaviour the code relies on:
  - ToBoolean truthiness;
  - the `\s` class;
  - `String.prototype.trim`;
  - `parseInt` with no radix;
  - number comparison, where every comparison with NaN is false.

## Model

| member | source | states |
|---|---|---|
| `Server.AnyFalsy` | server.js:29 | the guard holds exactly when some listed field of the body is falsy (missing, null, false, 0, NaN or empty string) |
| `Server.RegisterDonor` | server.js:23-59 | nothing is executed exactly when one of name, age, gender, blood_group, city, phone is falsy, and then the answer is 400 "All fields are required"; otherwise exactly one INSERT with the six fields in column order; 201 with the message and `donor_id` = insertId when the datastore returns, 500 "Server error. Please try again." when it throws |
| `Server.RequestBlood` | server.js:111-147 | the same for name, blood_group, city, reason, phone: 400 and no insert when any is falsy; otherwise one INSERT of the five fields; 201 with `request_id`, or 500 |
| `Server.ZeroAgeIsMissing` | server.js:29-34 | a numeric age of 0 is refused like a missing one: 400 and nothing executed |
| `Server.ZeroAgeStringPasses` | server.js:29 | the string "0" as age passes the guard: the donor is inserted exactly when every other required field is truthy |
| `Server.OptionalClauseSlots` | server.js:72-85 | a slot-free base followed by optional one-slot clauses has one slot per clause present |
| `Server.SearchSqlSlots` | server.js:72-85 | the search text has one `?` per filter present |
| `Server.BuildSearchQuery` | server.js:72-85 | the text and parameter list built step by step are the search text and parameters for the filters present, with as many `?` as parameters |
| `Server.SearchDonors` | server.js:66-104 | exactly one statement is executed, with the text chosen by the filters present and their values bound; 200 with `donors` = the rows and `count` = their number when the datastore returns, 500 when it throws |
| `Server.SearchWithoutFilters` | server.js:72-73 | with neither filter the text is the base `SELECT * FROM donors WHERE 1=1` and nothing is bound |
| `Server.SearchWithBothFilters` | server.js:76-85 | with both filters the blood-group clause and then the city clause are appended, the blood group bound as given and then the city as `%city%` |
| `Server.SearchTextIgnoresValues` | server.js:72-85 | two searches with the same filters present run the same text, whatever values they carry |
| `Server.GetRequests` | server.js:154-176 | one fixed SELECT with nothing bound; 200 with `requests` = the rows and `count` = their number, or 500 |
| `Server.InsertRouteWellBound` | server.js:37-43 | an INSERT route executes only statements with one bound value per slot when its text has one slot per field |
| `Server.InsertTextsSlots` | server.js:37-40 | each INSERT text has one slot per column: six for donors, five for blood requests |
| `Server.AllRequestsSqlSlots` | server.js:157 | the request listing's text has no slot |
| `Server.EveryStatementWellBound` | server.js:23-176 | every statement any of the four routes executes binds exactly one value per `?` of its text |
| `Sql.InsertSqlSlots` | server.js:125-131 | an INSERT text built from a table and a column list has exactly one slot per column |
| `Sql.JoinOfSlots` | server.js:39 | `?, ?, ..., ?` with n marks has n slots |
| `Sql.PlaceholdersAppend` | server.js:77-83 | slots of a concatenation add up, so appending a clause adds its slots |
| `SharedValidators.ValidatePhone` | public/script.js:22-25 | true exactly when the string is 10 characters long and each one is 0-9 |
| `SharedValidators.PhoneRejects` | public/script.js:23-24 | a length other than 10, or any non-digit, is refused |
| `SharedValidators.ValidateAge` | public/script.js:28-30 | true exactly when the age is a number between 18 and 65 inclusive; NaN is refused |
| `SharedValidators.AgeBoundaries` | public/script.js:29 | 18 and 65 are accepted; 17, 66 and NaN are refused |
| `Patterns.MatchesRun` | public/dashboard-script.js:267 | the step-by-step matcher of `^C{min,max}$` accepts exactly the strings of length min..max made of class C |
| `Patterns.FirstIndex` | public/dashboard-script.js:570 | the index found is the first `@`, or the length when there is none |
| `Patterns.EmailCheckSound` | public/dashboard-script.js:570 | every string the direct email test accepts has the shape word `@` word `.` word, where a word is non-empty with no white space and no `@` |
| `Patterns.EmailCheckComplete` | public/dashboard-script.js:570 | every string of that shape passes the direct email test |
| `Patterns.EmailCheckMatchesPattern` | public/dashboard-script.js:570 | the direct test and the pattern's language agree on every string |
| `Dashboard.DonorFormErrors` | public/dashboard-script.js:264-283 | each of the three messages is written exactly when its own check fails (name 2-50 letters or white space; age below 18 or above 65, never for NaN; phone 10 digits), no other message is written and no field gets two |
| `Dashboard.ValidateDonorForm` | public/dashboard-script.js:264-283 | true exactly when the name, the age (18-65 or NaN) and the phone all pass |
| `Dashboard.DonorAgeCheckVersusValidateAge` | public/dashboard-script.js:272 | on a number the form's age check agrees with `validateAge`; on NaN the form's check passes while `validateAge` refuses |
| `Dashboard.RequestFormErrors` | public/dashboard-script.js:499-518 | each message is written exactly when its check fails (name 2-50 characters other than line terminators, reason 5-100 such characters, phone 10 digits), and only those |
| `Dashboard.ValidateRequestForm` | public/dashboard-script.js:499-518 | true exactly when name, reason and phone all pass |
| `Dashboard.ProfileFormErrors` | public/dashboard-script.js:563-578 | each message is written exactly when its check fails (full name 2-100 letters or white space, email in the pattern's language, phone 10 digits), and only those |
| `Dashboard.Route` | public/dashboard-script.js:178-182 | a non-empty id gives PUT to the collection URL followed by `/id`; an empty one gives POST to the collection URL |
| `Dashboard.PathInjective` | public/dashboard-script.js:178-180 | two URLs under one base are equal only for the same id |
| `Dashboard.RouteSeparatesRecords` | public/dashboard-script.js:413-417 | creating and editing never hand `fetch` the same URL string, and two edits hand it the same string only for the same record |
| `Dashboard.DonorSubmit` | public/dashboard-script.js:161-190 | the messages are those of the donor checks on the trimmed, parsed form; a request is sent exactly when there are none, carrying the form object and routed by the hidden donor id |
| `Dashboard.SentDonorIsValid` | public/dashboard-script.js:174 | every donor sent has a 2-50 letter name, a 10-digit phone and an age that is 18-65 or NaN |
| `Dashboard.DonorAgeField` | public/dashboard-script.js:168 | an age field holding a whole number is read as that number, and the age message appears exactly when it is below 18 or above 65 |
| `Dashboard.BlankAgePasses` | public/dashboard-script.js:168 | an empty or blank age field is read as NaN and raises no age message |
| `Dashboard.DonorFieldsTrimmed` | public/dashboard-script.js:167-172 | name, city and phone reach the checks with no white space at either end |
| `Dashboard.DonorSubmitIgnoresPadding` | public/dashboard-script.js:167-172 | white space around the name, city or phone changes neither the messages nor the request |
| `Dashboard.RequestSubmit` | public/dashboard-script.js:396-425 | the messages are those of the request checks on the trimmed form; a request is sent exactly when there are none, routed by the hidden request id |
| `Dashboard.RequestFieldsTrimmed` | public/dashboard-script.js:402-406 | name, city, reason and phone reach the checks with no white space at either end |
| `Dashboard.RequestSubmitIgnoresPadding` | public/dashboard-script.js:402-406 | white space around name, city, reason or phone changes nothing |
| `Dashboard.SentRequestIsValid` | public/dashboard-script.js:410 | every blood request sent has a 2-50 character name and a 5-100 character reason, neither with a line break, and a 10-digit phone |
| `Dashboard.ProfileSubmit` | public/dashboard-script.js:553-590 | the messages are those of the profile checks on the trimmed form; a PUT to the profile URL is sent exactly when there are none |
| `Dashboard.ProfileFieldsTrimmed` | public/dashboard-script.js:558-560 | full name, email and phone reach the checks with no white space at either end |
| `Dashboard.ProfileSubmitIgnoresPadding` | public/dashboard-script.js:558-560 | white space around full name, email or phone changes nothing |
| `Dashboard.SentProfileIsValid` | public/dashboard-script.js:563-580 | every profile sent has a 2-100 letter name, an email in the pattern's language and a 10-digit phone |
| `Dashboard.SearchEntries` | public/dashboard-script.js:290-292 | `blood_group` is present exactly when the field is non-empty, `city` likewise, blood group first, nothing else |
| `Dashboard.SearchDonorParams` | public/dashboard-script.js:290-292 | the fresh `URLSearchParams` built by the two conditional appends holds exactly those entries |
| `Dashboard.UrlSearchParams.constructor` | public/dashboard-script.js:290 | a new object has no entries |
| `Dashboard.UrlSearchParams.Append` | public/dashboard-script.js:291-292 | `append` adds one pair at the end and keeps the others |
| `Dashboard.SearchQueryValues` | public/dashboard-script.js:287-295 | the server reads back each filter exactly when it was non-empty, with its value |
| `Dashboard.SearchReachesServer` | public/dashboard-script.js:287-295 | a dashboard search makes `/search-donors` run the text chosen by which fields were non-empty, binding the blood group as typed and the city as `%city%` |
| `JsSemantics.Trim` | public/dashboard-script.js:167 | the result is no longer than the input and starts and ends with a non-white-space character, unless it is empty |
| `JsSemantics.TrimIsInfix` | public/dashboard-script.js:167 | the result is a contiguous part of the input, and only white space was cut on either side |
| `JsSemantics.TrimIdempotent` | public/dashboard-script.js:167 | trimming twice is trimming once |
| `JsSemantics.TrimIgnoresPadding` | public/dashboard-script.js:167 | white space added around a string does not change its trimmed value |
| `JsSemantics.ParseInt` | public/dashboard-script.js:168 | an empty or all-white-space string reads as NaN |
| `JsSemantics.ParseIntReadsNatural` | public/dashboard-script.js:168 | the decimal rendering of a whole number reads back as that number, whatever text ends its digits, except an `x`/`X` after a lone `0` (a radix-16 prefix) |
| `JsSemantics.ParseIntReadsNegative` | public/dashboard-script.js:168 | a minus sign before the rendering of a positive number reads back as the negative number, whatever non-digit text follows |

## Left out

- The authentication, session, profile and per-user donor/request routes the dashboard calls (`/api/auth/...`, `/api/donors`, `/api/requests`, `/api/profile`). server.js does not define them, so the model stops at the request the dashboard sends to them.
- db.js and confi.js are not part of this model. The datastore is a reply parameter (`DbReply`): an insert id or rows, or a thrown error. SQL is never evaluated, so LIKE matching and row order are not modelled.
- DOM reads and writes, `fetch`, JSON parsing and serialisation, `alert`/`confirm`, timers, the list and card rendering, date formatting and the other async flows. In particular, `JSON.stringify` turns a NaN age into `null` before it is sent; the model stops before serialisation.
- How `fetch` resolves a URL: dot segments, or a `?` or `#` inside an id, are not modelled. The ids the dashboard puts in a path are the numeric `donor_id` and `req_id` the server returned.
- Percent-encoding by `URLSearchParams.toString` and decoding by Express. The model assumes the pair list round-trips. Express's parsing of repeated or bracketed names into arrays and objects is left out; only the string values the dashboard produces are modelled.
- Characters are Unicode scalar values. JavaScript strings are UTF-16 code units, so lengths and `.` can differ for characters outside the Basic Multilingual Plane.
- Numbers are exact rationals or NaN. Floating-point rounding, infinities and negative zero are not modelled; `parseInt` of a negative zero gives 0.
- `SharedValidators.ValidateAge`: only a number argument is modelled. JavaScript's conversion of a string or other value by `>=` is not.
- Server startup: `app.listen`, the port, middleware and static file serving.
