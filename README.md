# Parent email checker: verified model of the page logic

The application is one React page. It looks up a parent record by email
with a POST to `/auth/parents/lookup-id-by-email`. If a parent is found, the
user can delete that parent's data with a DELETE to
`/user/delete-parent-child`, after confirming in a dialog. The id travels in
a `parent-id` header. Almost all of `src/App.jsx` is styling and markup. This
project models the decision logic inside it, in four modules:

- `Json` (Json.dfy): JSON values as the page receives them. It models
  optional chaining (`json?.data?.parentId`) as `Member`, JavaScript
  truthiness as `Truthy`, and the string a template literal makes of a value
  as `JsString`. That last one includes the decimal numeral of a status
  (`Decimal`), with its inverse `ParseDecimal`. It is `None` where the
  conversion throws: for an object with its own `toString` member, or an
  array holding one (`ToStringThrows`).
- `EmailCheck` (Email.dfy): `emailIsValid`, i.e.
  `/.+@.+\..+/.test(email.trim())`. `Trim` follows `String.prototype.trim`
  and uses ECMAScript's whitespace and line-terminator characters. The
  regular expression's meaning is a ghost predicate, `RegexMatches`. It holds
  when some stretch of the string lies on one line and reads: at least one
  character, `@`, at least one character, `.`, at least one character. The
  `.+` runs may contain `@` and `.`. The page calls
  `RegExp.prototype.test`. The model decides the same question with a
  left-to-right scan, `Run`, and `RunDecidesRegex` proves the scan agrees
  with the regex meaning on every string.
- `Responses` (Responses.dfy): the lookup classifier (found, not-found or
  unexpected, checked in that order), the clear decision (`res.ok`, i.e.
  status 200 to 299, and a truthy `success`), and the text of every
  notification. A body that does not parse reads as `{}`. A failure message
  whose string conversion throws ends in the handler's `catch`.
- `App` (App.dfy): the state `{email, loading, parentId, showConfirm, raw}`
  as the class `AppState`. Each handler is a method. `handleLookup` and
  `handleClear` are split at their `await`:
  - `StartLookup` and `StartClear` return the request to send, or none
    (an invalid email, or an id whose string conversion throws);
  - `FinishLookup` and `FinishClear` take the response or a network
    failure, and return the notification.

  Controls with `disabled={loading}`, and controls rendered only under a
  condition, become preconditions. The ghost field `awaiting` records which
  handler is suspended. `Valid()` ties it to `loading`.

Properties proved:

- A submit first clears `parentId` and `raw`, then validates. An invalid
  email sends nothing. A valid one sends exactly one POST whose body is
  `{email: trim(email)}`.
- `raw` is the parsed body after any lookup response. `parentId` is truthy
  after a lookup exactly when the outcome is found.
- `loading` is false after every way out of both handlers. `showConfirm` is
  false after every way out of the clear handler.
- The DELETE carries the stored `parentId` as its header. Only the
  dialog's confirm button issues it. In `handleClear` taken alone, an id
  whose string conversion throws sends nothing and ends with the
  network-error notification (`ConfirmOverThrowingId`). The page never
  reaches that state: such an id is an object, or an array holding one, and
  the page renders a truthy `parentId` as a React child (src/App.jsx:364,
  441), which throws first. The model keeps the transition as extra
  behaviour.
- `handleClear` never calls `setRaw`, so `FinishClear` leaves `raw`
  unchanged.
- The regex allows `@` and `.` inside its `.+` runs.
- The confirm button sends whatever `parentId` holds, not the id the dialog
  was opened for. The dialog's layers cover the page and take pointer
  clicks, but a keyboard submit of the form behind it still works. An
  invalid submit clears `parentId` (`SubmitBehindDialog`), and confirming
  then sends an empty `parent-id` (`ConfirmOverEmptyId`).
- The overlay's click handler closes the dialog with nothing to disable it,
  even while a clear is outstanding (`OverlayClick`). Read from the styles
  (src/App.jsx:144-159), the dialog's centring layer lies above the overlay
  and covers it, so a pointer click outside the card reaches that layer,
  which has no handler. The page may therefore never run this transition.
  The model keeps it; an extra transition only adds behaviour, so the
  properties above still hold for the page.

## Model

| member | source | states |
|---|---|---|
| `Json.Member` | src/App.jsx:291 | `v?.key`: the member of an object, `undefined` (`None`) for anything else |
| `Json.Truthy` | src/App.jsx:291 | JavaScript truthiness of a JSON value or `undefined` |
| `Json.FalsyValues` | src/App.jsx:291 | exactly `undefined`, `null`, `false`, `0` and `""` are falsy |
| `Json.Decimal` | src/App.jsx:297 | the status numeral is non-empty, all digits, with no leading zero unless the status is 0 |
| `Json.ParseDecimalOfDecimal` | src/App.jsx:297 | the numeral written for a status reads back as that status |
| `Json.DecimalDelimited` | src/App.jsx:322 | a numeral followed by a non-digit can be read back in only one way |
| `Json.JsString` | src/App.jsx:315-322 | the string `${v}` makes of a value: `null`, `true`/`false`, the numeral, the string itself, the comma-join of an array, `[object Object]`; `None` where the conversion throws |
| `Json.JsStringThrowsExactly` | src/App.jsx:315-322 | the conversion throws exactly for an object with its own `toString` member, or an array holding one at any depth |
| `Json.JsStringOfNumber` | src/App.jsx:322 | a number never throws; a non-negative one renders as its numeral, which reads back as the number; a negative one starts with `-` |
| `EmailCheck.Trim` | src/App.jsx:269 | `String.prototype.trim`: drops leading and trailing ECMAScript whitespace and line terminators |
| `EmailCheck.EmailIsValid` | src/App.jsx:269 | `/.+@.+\..+/.test(email.trim())`, decided by the scan `Run` |
| `EmailCheck.TrimStartRemovesLeading` | src/App.jsx:269 | the trim's first half removes exactly the maximal run of leading whitespace and line terminators |
| `EmailCheck.TrimEndRemovesTrailing` | src/App.jsx:269 | the trim's second half removes exactly the maximal run of trailing whitespace and line terminators |
| `EmailCheck.TrimIsInnerStretch` | src/App.jsx:269 | `trim()` is the stretch between the whitespace at both ends, and neither of its ends is whitespace |
| `EmailCheck.TrimIdempotent` | src/App.jsx:269 | trimming twice is trimming once |
| `EmailCheck.RunDecidesRegex` | src/App.jsx:269 | the scan finds a match iff `/.+@.+\..+/` matches some single-line stretch |
| `EmailCheck.EmailIsValidMeaning` | src/App.jsx:269 | `emailIsValid` iff the trimmed email holds a single-line stretch of the form nonempty `@` nonempty `.` nonempty |
| `EmailCheck.ValidEmailIsLong` | src/App.jsx:276 | an accepted email is at least 5 characters once trimmed, so the emptiness test is implied |
| `EmailCheck.BlankRejected` | src/App.jsx:276 | an email that trims to nothing is rejected |
| `EmailCheck.MissingPartsRejected` | src/App.jsx:269 | without an `@` followed, two or more places later, by a `.`, the email is rejected |
| `EmailCheck.TrimClean` | src/App.jsx:269 | an email whose first and last characters are not whitespace is tested unchanged |
| `EmailCheck.PaddingIgnored` | src/App.jsx:269 | a whitespace or line-break character on each side changes neither the trimmed email nor the verdict |
| `EmailCheck.AcceptedShape` | src/App.jsx:269 | every `l@d.t` whose `l` and `t` are not whitespace and whose `d` is not a line break is accepted (as "a@b.c"), even when `d` is `@` or `.` (as "a@..c") |
| `EmailCheck.DotInDomainAccepted` | src/App.jsx:269 | "a@.b.c" is accepted: a `.` may open the domain run |
| `EmailCheck.EmptySuffixRejected` | src/App.jsx:269 | "a@b." is rejected: the run after the `.` is empty |
| `EmailCheck.EmptyLocalRejected` | src/App.jsx:269 | "@b.c" is rejected: the run before the `@` is empty |
| `EmailCheck.LineBreakRejected` | src/App.jsx:269 | a line break after the first character rejects an otherwise matching `l\n@d.t`: a match may not span lines |
| `Responses.BodyJson` | src/App.jsx:288 | `res.json().catch(() => ({}))`: the parsed body, or `{}` when it does not parse |
| `Responses.Ok` | src/App.jsx:318 | `res.ok`: the status is 200 to 299 |
| `Responses.ClassifyLookup` | src/App.jsx:291-299 | a found id is truthy and is `json.data.parentId`; an unexpected outcome carries the transport status |
| `Responses.LookupOrder` | src/App.jsx:291-299 | found iff `success` and `data.parentId` are truthy; else not-found iff `statusCode === 404`; else unexpected |
| `Responses.LookupNotice` | src/App.jsx:291-297 | the lookup notification: "Parent found.", "Parent not found for the given email." or "Unexpected response (HTTP status)." |
| `Responses.LookupIgnoresTransportStatus` | src/App.jsx:294 | found and not-found do not depend on the transport status |
| `Responses.UnparseableLookupIsUnexpected` | src/App.jsx:288 | a body that does not parse reads as `{}` and gives unexpected with the transport status |
| `Responses.UnexpectedTextNamesStatus` | src/App.jsx:297 | equal "Unexpected response" texts name equal statuses |
| `Responses.FoundP1IsFound` | src/App.jsx:291-292 | `{"success": true, "data": {"parentId": "p1"}}` is found with id "p1" |
| `Responses.LookupExamples` | src/App.jsx:291-297 | `{statusCode: 404}` is not-found at status 200; the string "404" and an empty id are unexpected |
| `Responses.UnexpectedTextExample` | src/App.jsx:297 | status 502 gives "Unexpected response (HTTP 502)." |
| `Responses.FailureDetail` | src/App.jsx:322 | `json?.message` as the template literal renders it, or "Unknown" when it is falsy; `None` where rendering throws |
| `Responses.ClearNotice` | src/App.jsx:318-327 | the clear notification: success, the failure text, or the network-error text when rendering the failure text throws |
| `Responses.ClearOutcome` | src/App.jsx:318-327 | success iff `res.ok` and `success` is truthy; otherwise "Clear failed (HTTP status). " followed by the detail, or the network-error text when the detail throws |
| `Responses.FailureDetailCases` | src/App.jsx:322 | a non-empty string message is shown verbatim, a positive number as its numeral, an empty or absent one as "Unknown"; rendering throws exactly for a message whose conversion throws |
| `Responses.ClearFailureText` | src/App.jsx:322 | a failure notification other than the network error is the status text followed by the rendered detail |
| `Responses.ClearNeedsBoth` | src/App.jsx:317-322 | a status outside 200-299 always fails; an unparseable body fails with "Unknown" |
| `Responses.ClearFailureTextNamesStatus` | src/App.jsx:322 | equal clear-failure texts have equal statuses and equal details |
| `Responses.ClearedOkIsCleared` | src/App.jsx:318-319 | `{"success": true}` at status 200 gives "Data cleared successfully." |
| `Responses.ServerErrorClearExample` | src/App.jsx:318-323 | status 500 fails even with `success: true`, as "Clear failed (HTTP 500). Unknown" |
| `Responses.MessageClearExample` | src/App.jsx:318-323 | status 200 without `success` fails, and its message is appended verbatim |
| `Responses.ThrowingMessageClearExample` | src/App.jsx:321-327 | a message `{"toString": 1}` makes the failure text throw, giving "Network or server error during clear." |
| `App.LookupRequest` | src/App.jsx:283-287 | the POST to the lookup URL with a JSON content type and body `{email}` |
| `App.ClearRequest` | src/App.jsx:313-316 | the DELETE to the clear URL with the id converted to a string in its `parent-id` header; none where the conversion throws |
| `App.ClearHeaderIsId` | src/App.jsx:313-316 | the DELETE carries a string id unchanged in its `parent-id` header |
| `App.ClearRequestRefused` | src/App.jsx:313-316 | no DELETE is sent exactly when the id's string conversion throws |
| `App.AppState.constructor` | src/App.jsx:262-267 | the initial state: empty email and id, not loading, dialog hidden, no raw body |
| `App.AppState.EditEmail` | src/App.jsx:397-398 | typing is possible only while not loading and sets the email |
| `App.AppState.StartLookup` | src/App.jsx:271-287 | clears id and raw; an invalid email gives the validation notice with no request and `loading` unchanged; a valid one sends the POST of the trimmed email and sets `loading` |
| `App.AppState.FinishLookup` | src/App.jsx:288-305 | a response sets `raw` to its parsed body and the id only when found; a network failure leaves both cleared; `loading` ends false on every path |
| `App.AppState.OpenConfirm` | src/App.jsx:308 | opens the dialog, possible only while not loading and with a truthy id |
| `App.AppState.CancelButton` | src/App.jsx:369 | closes the dialog, possible only while not loading; sends nothing |
| `App.AppState.OverlayClick` | src/App.jsx:223 | closes the dialog, even while a clear is outstanding; sends nothing (the styles may keep pointer clicks from reaching it) |
| `App.AppState.StartClear` | src/App.jsx:310-316 | possible only from the open dialog while not loading; sets `loading` and returns the DELETE for the stored id, or none when its conversion throws, after which only a network failure can follow |
| `App.AppState.FinishClear` | src/App.jsx:317-331 | the notice follows the clear decision or the network failure; `loading` and `showConfirm` end false; id and raw are unchanged |
| `App.FoundThenCleared` | src/App.jsx:288-331 | a found "p1" leads, through confirm, to one DELETE with `parent-id: p1`, a success notice and the dialog closed |
| `App.SubmitBehindDialog` | src/App.jsx:271-279 | an invalid submit while the dialog is open is rejected, clears the id and leaves the dialog open and enabled |
| `App.ConfirmOverEmptyId` | src/App.jsx:310-316 | confirming over an empty id sends a DELETE with an empty `parent-id` |
| `App.ConfirmOverThrowingId` | src/App.jsx:310-331 | in `handleClear` alone, confirming over an id whose conversion throws sends nothing, shows the network-error text and closes the dialog (the page's render throws on such an id first) |
| `App.CancelIssuesNothing` | src/App.jsx:369-370 | opening then cancelling the dialog leaves id, raw and `loading` as they were |

## Left out

- Styling, layout, the focus state and the hover handlers (src/App.jsx:12-208, 334-488): presentation only.
- The real `fetch`, `res.json()` parsing, `console.debug` and `console.error`, and the toast queue: these are I/O. Responses are inputs, and requests and notifications are outputs.
- The endpoint URLs come from build-time environment variables. The model uses the built-in defaults as constants.
- The serialisation of the request body by `JSON.stringify`, and the pretty-printing of `raw` in the inspector panel: library formatting. Requests carry the JSON value instead.
- The browser's own `type="email"` and `required` validation of the input: it is not part of this code.
- React's render scheduling and the interleaving of asynchronous steps. Each `await` is a split into a start and a finish step.
- JSON numbers are integers in the model. Fractions, `-0`, and the exponent notation JavaScript uses for magnitudes of 10^21 and more are not modelled.
- `Json.JsString`: renders every integer with its exact digits. JavaScript numbers are doubles: `JSON.parse` rounds a magnitude of 2^53 or more to the nearest double, and Number::toString writes the shortest digits that read back as that double, so a message of 18446744073709551616 shows as "18446744073709552000" in the page and as its exact digits in the model. A numeric `parentId` in the `parent-id` header differs the same way.
- Strings are sequences of Unicode scalar values, not UTF-16 code units. This changes no regex outcome, because `.` matches any non-terminator code unit.
- `App.ClearRequest`: does not model how the Fetch Standard's Headers class treats the header value once it is a string. It strips leading and trailing HTTP whitespace (tab, LF, CR, space), and a NUL, CR or LF inside the value after that stripping, or a character above U+00FF, makes `fetch` reject, which would take the network-error path (a found id `"a\nb"` gives the network error in the page but a DELETE in the model).
- Rendering: the page shows `parentId` as a React child (src/App.jsx:364, 441). A found id that is an object, or an array holding one, makes that render throw. Rendering is not modelled.
- `Json.Member`: only object members are modelled. Properties of strings, arrays and prototypes are not, and none of them has a name the page reads.
