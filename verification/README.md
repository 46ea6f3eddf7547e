# Planvest order intake and catalog, modelled in Dafny

Planvest is a small product catalog with a one-endpoint order backend. This project
models the two pieces of it that hold logic:

- **Order intake** (`server.js`). `POST /api/order` checks its body in a fixed order:
  both fields present, the email matching `^[^\s@]+@[^\s@]+\.[^\s@]+$`, the package
  one of `Bronze`, `Silver`, `Gold`. It then builds an order priced from a fixed
  table and appends it to the orders file by read-modify-write (`saveOrder`). It
  attempts an email to the operator and answers with one fixed acknowledgement.
  `GET /admin/orders` is guarded by the `ADMIN_TOKEN` shared secret and returns the
  file's orders in insertion order.
- **Catalog page** (`app.js`). The search/category filter of `renderList`, the lookup
  in `selectPackage`, the compare tray of `toggleCompare` (a JavaScript `Set`,
  modelled as a duplicate-free sequence in insertion order), `renderSummary` and the
  guard of the mail button.

Files:

- `wrappers.dfy`: `Option`.
- `text.dfy`: the JavaScript string primitives used. The exact ECMAScript `\s`/`trim`
  whitespace set, `trim`, `toLowerCase`, `includes` and `join`.
- `email.dfy`: the email pattern. It gives the regular expression's language, an
  equivalent statement without the regular expression, and a one-pass scanner.
- `orders.dfy`: the order-intake service.
- `catalog.dfy`: the catalog page.

Modelling choices:

- A body or query field is a `Field`. It is `Absent`, a string, or another JSON value.
  Another value is given by its JavaScript truthiness and its `String(...)`
  coercion, because `RegExp.prototype.test` coerces its argument. The coercion is
  partial: for an object such as `{"toString": 1}` it throws a `TypeError`.
- The orders file is a `Backing`, one of:
  - `Missing`: no file.
  - `Empty`: an empty file.
  - `Corrupt`: unreadable or unparseable.
  - `NonArray`: JSON that is not an array.
  - `Valid(orders)`: an array of orders.
- The id (`Date.now`/`Math.random`), the ISO timestamp, the outcome of the file write
  and the environment variables are parameters (`Effects`, `Env`). The write ends in
  one of three ways (`WriteOutcome`):
  - `Written`: the new content is on disk.
  - `Untouched`: the open failed, so the file is as it was.
  - `Truncated`: the truncating open succeeded and the write then failed. The file is
    left empty, or holding a prefix of the new JSON text that does not parse.

Behaviour of the code that the model follows, and that a reader might not expect:

- `saveOrder` recovers a read or parse error as `[]`. The next successful write
  therefore discards the corrupt content. The admin listing does not recover: it
  answers 500 for the same file.
- A failed write is logged and swallowed, so the submitter still gets 200.
  `writeFileSync` truncates the file before writing. A write that fails after that
  point leaves the file empty or corrupt, and the next successful save starts from
  `[]`. Every earlier order is then lost (`TruncationLosesEarlierOrders`).
- An email that is a JSON object or array whose string coercion throws makes the
  pattern test throw. The handler's `catch` answers 500, and nothing is written or
  mailed.
- The only storage condition that makes a submission fail is a file holding valid
  JSON that is not an array. `arr.push` throws outside both `try` blocks, so the
  handler answers 500 and nothing is written or mailed. The listing returns such a
  value with 200.
- Ids are not guaranteed unique. Uniqueness is kept only when the supplied id is
  fresh (`SubmitKeepsIdsDistinct`).
- The missing-field rejection does not say which field is missing.
- The Gold order amount (`500$`) is not the catalog's enterprise price (`1050$`).

## Model

| member | source | states |
|---|---|---|
| Text.Trim | app.js:73 | `trim` yields a slice of its input with only whitespace before and after it; the slice is empty exactly when the input is all whitespace and otherwise begins and ends with a non-whitespace character |
| Text.IncludesIff | app.js:80-82 | `includes` holds exactly when the query occurs at some position of the text |
| Text.JoinContainsParts | app.js:82 | every feature value occurs in the space-joined text of the values |
| Email.MatchesPatternIff | server.js:92-93 | the email pattern accepts exactly the strings with no whitespace, exactly one `@` (not first), and a `.` after it that is neither the first nor the last character of the domain part |
| Email.ScanEmail | server.js:92-93 | the one-pass scan answers `true` exactly when the string is in the pattern's language |
| OrderIntake.ParsePlan | server.js:96-97 | a package passes the allowed-list check exactly when it is a string among `Bronze`, `Silver`, `Gold`; a non-string never passes |
| OrderIntake.ParsePlanName | server.js:96-97 | every plan's name passes the check and yields that plan |
| OrderIntake.Validate | server.js:88-97 | an accepted submission carries the accepted plan's name as its package string |
| OrderIntake.ValidateMeaning | server.js:89-97 | the checks short-circuit in the order presence, email, package: a missing field wins; then an email whose string coercion throws raises an exception; each rejection happens exactly when the earlier checks pass and its own fails; acceptance needs a truthy well-shaped email and an allowed package string |
| OrderIntake.EmailReportedBeforePackage | server.js:92-97 | a bad email together with a bad package is reported as the email error |
| OrderIntake.BuildOrder | server.js:100-108 | the order keeps the submitted package and email and the supplied id and timestamp; its amount is the plan's entry in the order price table (68$, 112$, 500$); the contract address is present exactly when the variable is set and non-empty; the note is the fixed payment advisory |
| OrderIntake.SaveOrder | server.js:36-53 | it throws exactly when the content is not an array; otherwise a successful write appends the order after the existing records, or makes the file just the order when the content was unreadable; a failed open leaves the file as it was; a write failing after the truncating open leaves the file empty or unreadable, with no earlier record left |
| OrderIntake.Submit | server.js:86-155 | 400 exactly on rejection, with the rejection's message; 500 with the server error exactly when the email's coercion throws or an accepted order meets non-array content; any non-200 answer leaves the file untouched and sends no mail; a 200 answer is always the fixed acknowledgement; the file changes only on 200 and never when the open failed; a successful write leaves a valid file whose last record is the order built from the request; a truncated write leaves it empty or corrupt; a mail carrying that built order to the owner address is attempted exactly on 200 with SMTP configured |
| OrderIntake.AcknowledgementIsUniform | server.js:148-149 | every accepted submission whose order can be appended gets the same response, whatever its email, id, clock, write outcome or mail settings, so the email is never echoed |
| OrderIntake.TruncationLosesEarlierOrders | server.js:36-53 | when a write fails after the truncating open, the next accepted submission whose write succeeds leaves the file listing only its own order, whatever records or unreadable content the file held before |
| OrderIntake.UncoercibleEmailExample | server.js:86-155 | Gold with the email `{"toString": 1}` gets 500 with the server error and changes nothing |
| OrderIntake.ListOrders | server.js:159-171 | 401 with `Unauthorized` exactly when the secret is unset or empty or the token is not that exact string (a missing token counts as `''`), whatever the file holds; otherwise the file's records in order, `[]` for a missing or empty file, and 500 for unreadable content |
| OrderIntake.SubmitStep | server.js:36-53 | one submission against a readable file whose write succeeds leaves the earlier records followed by its own record (none when rejected) |
| OrderIntake.ReplayAppends | server.js:36-53 | over any run of submissions with successful writes, the file reads as the earlier records unchanged followed by the accepted orders in submission order; rejected submissions leave nothing |
| OrderIntake.AllAcceptedRecorded | server.js:100-111 | when all submissions are accepted there is one record per submission, record `i` being the order built from submission `i` |
| OrderIntake.ListingAfterReplay | server.js:159-171 | with the right token, the listing after a run of submissions returns the earlier records followed by the accepted orders |
| OrderIntake.SubmitKeepsIdsDistinct | server.js:100-111 | if the log's ids are distinct and the new id is fresh, the ids stay distinct after a submission |
| OrderIntake.BronzeExample | server.js:86-149 | Bronze with `a@b.com` is acknowledged and adds exactly one record, priced 68$, after the existing ones |
| OrderIntake.MalformedEmailExample | server.js:92-93 | Gold with `not-an-email` gets 400 with the email error and changes nothing |
| OrderIntake.UnknownPackageExample | server.js:96-97 | Platinum with `a@b.com` gets 400 with the package error and changes nothing |
| Catalog.NormalizeQuery | app.js:73 | the normalised query is empty exactly when the search box holds only whitespace |
| Catalog.FilterShown | app.js:77-84 | the filter result is an order-preserving subsequence of the catalog holding exactly the packages that pass the test, each as many times as the catalog holds it, and is the whole catalog when every package passes |
| Catalog.Visible | app.js:72-84 | the shown list keeps catalog order; a category other than `all` admits only that category; a package is shown exactly when it is in the category and matches the normalised query, and then as many times as the catalog holds it; `all` with a blank search box shows the whole catalog |
| Catalog.ProCategoryExample | app.js:2-84 | on the shipped catalog, category `pro` with an empty search lists the two `pro` packages in catalog order |
| Catalog.FilterIdempotent | app.js:77-84 | filtering the filtered list again changes nothing |
| Catalog.QueryMeaning | app.js:79-82 | a non-empty query matches exactly when it occurs in the lower-cased name, short text or joined feature values |
| Catalog.ValueMatchFindsPackage | app.js:82 | a query occurring in one lower-cased feature value finds the package |
| Catalog.KeysNotSearched | app.js:82 | renaming feature keys never changes whether a query matches |
| Catalog.IndexOfId | app.js:113 | `find` stops at the first package with the id, and finds none exactly when no package has it |
| Catalog.Find | app.js:113 | the lookup yields the first catalog package with the id, or nothing exactly when the id is unknown |
| Catalog.Select | app.js:112-115 | an unknown id leaves the selection unchanged; a known id selects the first catalog package with that id |
| Catalog.Remove | app.js:143 | deleting an id removes it, keeps every other id and the order of the rest, and keeps the tray duplicate-free |
| Catalog.Toggle | app.js:142-144 | the toggled id flips membership, no other id changes, the tray stays duplicate-free, and an added id goes at the end |
| Catalog.ToggleTwice | app.js:142-144 | toggling twice restores membership; an absent id leaves the tray exactly as it was; a present id comes back at the end |
| Catalog.RemoveAppended | app.js:143-144 | deleting the id just added restores the tray |
| Catalog.Summarize | app.js:148-157 | the prompt exactly for an empty tray; otherwise one card per tray id in tray order, each the first catalog package with that id; rendering fails exactly when some tray id has no package |
| Catalog.ToggleKeepsTrayKnown | app.js:136-153 | toggling catalog ids keeps every tray id in the catalog, so the summary never fails |
| Catalog.MailClick | app.js:171-175 | with no selection the button only alerts; otherwise it composes a message about the selected package |

## Left out

- Express middleware is not modelled: helmet, rate limiting, CORS, JSON body parsing, static files and `listen` (server.js:15-30, 174-178). It is configuration with no logic of its own.
- nodemailer is not modelled: transporter creation and verification, `sendMail`, and the mail's subject and text (server.js:57-82, 114-146). The model records only the attempt (recipient and order), because delivery is external I/O whose failure is swallowed. A synchronous throw from `createTransport` after the save would give 500 with the order kept; the model assumes transporter creation does not throw.
- `fs` and JSON are not modelled. The file's content is abstracted to the five `Backing` cases, and an array is assumed to hold orders. Any element of a JSON array is treated as an order.
- Id and timestamp generation are parameters because they are nondeterministic (`Date.now`, `Math.random`, `new Date()`). Id uniqueness is only assumed, as a precondition of `SubmitKeepsIdsDistinct`.
- Environment values (`CONTRACT_ADDRESS`, `OWNER_EMAIL`, `ADMIN_TOKEN`, SMTP host/user/password) are parameters. `PORT`, `ALLOWED_ORIGIN`, `SMTP_PORT` and `FROM_EMAIL` only configure the server or the mail, so they are not modelled.
- The file a failed write leaves behind is abstracted to `Empty` or `Corrupt`. Which prefix of the JSON text reached the disk is not modelled; no proper prefix of the serialized array parses.
- Console logging is not modelled.
- Concurrent requests are not modelled. Two interleaved read-modify-write saves can lose an order; the model is one request at a time.
- DOM construction, `innerHTML` templates, event wiring, the `mailto:` URL and `encodeURIComponent` are presentation only (app.js:91-108, 116-138, 154-166, 176-186).
- `toLowerCase` folds only ASCII letters here. The Unicode case mapping is not modelled; the catalog's Persian text has no case.
- Feature objects are lists of entries in property-enumeration order. JavaScript lists integer-like keys first; the catalog has none.
- OrderIntake.AcknowledgementIsUniform: states that the acknowledgement is the same constant for every accepted submission. It does not prove directly that the constant's text contains no email.
