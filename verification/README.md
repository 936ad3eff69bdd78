# Client dashboard: filters, record mappers, service validation and submission

This project models the logic inside the client dashboard component
(`src/components/ClientDashboard.jsx`) of a lead-generation client portal,
and proves properties of it. The portal shows a client's appointments,
service requests and purchases. These are records from a spreadsheet-backed
record store. The client can also spend prepaid points on services from a
fixed catalog.

The modelled pieces:

- **Records and rows** (`records.dfy`, `rows.dfy`). A raw record is a map from
  column name to a cell holding text or a number. The three `.map` bodies
  turn records into appointment, service-request and purchase rows. Each
  missing or falsy cell takes its default: `''`, `0`, or `''` for the
  purchase amount and credits. The profile the dashboard reads is the first
  client record's cells, or an empty map.
- **Filter engine** (`filters.dfy`, over `array_ops.dfy` and `js_string.dfy`).
  - The appointment filter and the request filter are `Array.prototype.filter`
    calls.
  - Their search is a case-insensitive substring test.
  - Their status filter passes everything for `all`. Otherwise it is
    case-insensitive equality.
  - Requests also pass a date-bucket test: `today`, `week` or `month`.
- **Catalog and validation** (`catalog.dfy`). The 19-entry service catalog,
  the "Points Required" read-out and `validateServiceRequest`. A request
  needs a selected service whose price does not exceed the client's
  "Remaining Points". A missing balance counts as 0.
- **Submission** (`submission.dfy`). `handleSubmitRequest` as a class
  `Dashboard`, whose fields are the component's form state plus an `outbox`
  of posted payloads. Its methods update those fields in the source's order.
  A function `AfterSubmit` gives the state a submission ends in, and lemmas
  about it state what the form promises.
- **Initials** (`initials.dfy`). The sidebar badge: the upper-cased first
  letters of the words of "Client Name", or `U`.

Modelling choices:

- **Cell types.** A cell read from a text column that holds a number reads
  as `''`. A cell read from a numeric column that holds text reads as `0`.
  The source assumes each column has one type. The purchase amount and
  credits keep whatever the cell holds.
- **Letter case.** Lower- and upper-casing act on ASCII letters only.
- **Dates.**
  - `new Date(s)` is a parameter `parseDate: string -> Option<int>` giving
    milliseconds. `None` is the invalid date, which every recognised bucket
    rejects.
  - "Now" and the instant one calendar month earlier (`setMonth`) are a
    `Clock` parameter.
  - A week ago is `now` minus seven days of milliseconds.
  - Two instants fall on the same `toDateString` when they lie in the same
    day-long interval of the clock.
- **The network.** The parameter `postSucceeds` says whether the webhook
  `fetch` resolved or threw. A `fetch` that resolves with an HTTP error
  status (4xx, 5xx) still counts as resolved: the handler never inspects
  the response, so it takes the "submitted successfully" branch. The
  current time's ISO string is the parameter `timestamp`.

Two observations the proofs bring out:

- **`today` is not contained in `week`.** The `week` bucket stops at the
  current instant. A request dated later on the current day passes `today`
  but not `week` (`Filters.TodayNotWithinWeek`). Dates on the current day
  that are not in the future do lie in the week
  (`Filters.TodaySoFarWithinWeek`).
- **A name missing from the catalog throws.** Then `find` yields
  `undefined`, and `validateServiceRequest` throws a `TypeError` on reading
  its `points` before anything else happens. The model names this verdict
  `UnknownService`: no toast, no post, no state change. The drop-down only
  offers catalog names, so the form cannot reach it.

## Model

| member | source | states |
|---|---|---|
| ArrayOps.Filter | src/components/ClientDashboard.jsx:236-246 | `Array.prototype.filter`: the result is an order-preserving subsequence of the input. A value is in it exactly when it is in the input and satisfies the predicate. Each kept value keeps its multiplicity. |
| ArrayOps.FilterKeepsAll | src/components/ClientDashboard.jsx:236-246 | Filtering with a predicate every element satisfies returns the input unchanged |
| ArrayOps.FilterMonotone | src/components/ClientDashboard.jsx:250-278 | When `p` implies `q` on every element, the `p`-filtered sequence is a subsequence of the `q`-filtered one |
| ArrayOps.Find | src/components/ClientDashboard.jsx:287 | `Array.prototype.find`: `None` exactly when no element matches, otherwise the first matching element |
| JsString.ToLowerCase | src/components/ClientDashboard.jsx:238 | `toLowerCase` keeps the length, turns each upper-case letter into the lower-case letter it pairs with, and leaves every other character as it is, so no upper-case letter remains |
| JsString.ToUpperCase | src/components/ClientDashboard.jsx:1180 | `toUpperCase` keeps the length, turns each lower-case letter into the upper-case letter it pairs with, and leaves every other character as it is, so no lower-case letter remains |
| JsString.LowerOfUpper | src/components/ClientDashboard.jsx:238-239 | Lower-casing an upper-cased string equals lower-casing the string itself |
| JsString.Includes | src/components/ClientDashboard.jsx:238 | `includes` is true exactly when the needle occurs at some position of the haystack |
| JsString.Split | src/components/ClientDashboard.jsx:1180 | `split(' ')` yields at least one piece, no piece contains the separator, and joining the pieces with it gives back the string |
| JsString.SplitJoin | src/components/ClientDashboard.jsx:1180 | Splitting a join of separator-free pieces gives back exactly those pieces, empty ones included |
| JsString.Join | src/components/ClientDashboard.jsx:1180 | `join(' ')`, the inverse Split and SplitJoin are stated against; definition; no contract |
| Records.Or | src/components/ClientDashboard.jsx:101 | JavaScript's logical-or default: the cell when it is present and truthy, the fallback otherwise (missing, `''` or `0`) |
| Records.TextField | src/components/ClientDashboard.jsx:101 | A text column read with the `''` default: the cell's text when present, `''` otherwise |
| Records.NumberField | src/components/ClientDashboard.jsx:288 | A numeric column read with the `0` default: the cell's number when present, `0` otherwise |
| Records.Lookup | src/components/ClientDashboard.jsx:668-669 | `clientData[key]` copied into the JSON payload: present exactly when the cell is, and then equal to it |
| Rows.ToAppointment | src/components/ClientDashboard.jsx:100-106 | Each appointment column is the record's cell, or `''` / `0` when it is absent |
| Rows.ToServiceRequest | src/components/ClientDashboard.jsx:122-131 | Each request column is the record's cell, or `''` / `0` when it is absent |
| Rows.ToPurchase | src/components/ClientDashboard.jsx:150-158 | Each purchase column is the record's truthy cell, or `''` otherwise, for amount and credits as well |
| Rows.MapAppointments | src/components/ClientDashboard.jsx:100-106 | One appointment row per record, in record order |
| Rows.MapServiceRequests | src/components/ClientDashboard.jsx:122-131 | One request row per record, in record order |
| Rows.MapPurchases | src/components/ClientDashboard.jsx:150-158 | One purchase row per record, in record order |
| Rows.ClientData | src/components/ClientDashboard.jsx:171 | The profile is the first fetched client record's cells, or the empty map when the fetch found none (lines 73-74 keep only the first record) |
| Rows.EmptyProfileDefaults | src/components/ClientDashboard.jsx:171 | With no client record every profile cell reads as `0` or `''` |
| Rows.SampleAppointmentRow | src/components/ClientDashboard.jsx:100-106 | A record with date, status and points but no prospect or outcome maps to a row with those three and `''` for the rest |
| Rows.ZeroPurchaseCellsShowBlank | src/components/ClientDashboard.jsx:154-155 | A purchase amount or credits cell holding `0` shows as `''` |
| Filters.FilterAppointments | src/components/ClientDashboard.jsx:235-247 | The rows kept are an order-preserving subsequence of the input. A row is kept exactly when (name or outcome contains the term, ignoring case) and the status matches. Kept rows keep their multiplicity. |
| Filters.FilterServiceRequests | src/components/ClientDashboard.jsx:249-279 | The same for requests. Search covers service or notes; a row must also pass the date bucket. |
| Filters.SearchHit | src/components/ClientDashboard.jsx:238-239 | The search test on one field: the lower-cased term occurs in the lower-cased field (also lines 252-253); definition; no contract |
| Filters.StatusMatches | src/components/ClientDashboard.jsx:241-243 | The status test: `all` passes everything, otherwise case-insensitive equality with the row's status (also lines 255-257); definition; no contract |
| Filters.AppointmentMatches | src/components/ClientDashboard.jsx:236-246 | The appointment callback: (name or outcome hits the search) and the status matches; definition; no contract |
| Filters.ServiceRequestMatches | src/components/ClientDashboard.jsx:250-278 | The request callback: (service or notes hits the search) and the status matches and the date bucket holds; definition; no contract |
| Filters.DateMatches | src/components/ClientDashboard.jsx:260-275 | The date bucket: true for `all`, an empty date or an unrecognised filter value; otherwise the parsed date must be on today's day, within `[now - 7 days, now]` or within `[monthAgo, now]`; an unparseable date fails every bucket; definition; no contract |
| Filters.WeekAgo | src/components/ClientDashboard.jsx:267-268 | Seven days of milliseconds before now; definition; no contract |
| Filters.Day | src/components/ClientDashboard.jsx:265 | The day an instant falls on, compared in place of `toDateString`; definition; no contract |
| Filters.EmptySearchMatches | src/components/ClientDashboard.jsx:238 | The empty search term matches every field |
| Filters.VerbatimTermMatches | src/components/ClientDashboard.jsx:238 | A term occurring verbatim in a field is found |
| Filters.SearchIgnoresCase | src/components/ClientDashboard.jsx:238-239 | Upper-casing the field and the term does not change whether the search matches |
| Filters.StatusIgnoresCase | src/components/ClientDashboard.jsx:241-243 | Upper-casing the row's status does not change whether it passes the status filter |
| Filters.MissingStatusMatches | src/components/ClientDashboard.jsx:255-257 | A missing status (`''`) passes exactly the filter values `all` and `''` |
| Filters.FilterAppointmentsPassThrough | src/components/ClientDashboard.jsx:235-247 | With search `''` and status `all` the appointments come back unchanged |
| Filters.FilterServiceRequestsPassThrough | src/components/ClientDashboard.jsx:249-279 | With search `''`, status `all` and date `all` the requests come back unchanged, whatever the clock |
| Filters.UnrecognisedDateFilterKeeps | src/components/ClientDashboard.jsx:260-275 | A date filter other than `today`, `week` and `month` keeps every date |
| Filters.UndatedRequestKeeps | src/components/ClientDashboard.jsx:261 | A request with an empty date passes every bucket |
| Filters.WeekWithinMonth | src/components/ClientDashboard.jsx:266-273 | When a month ago is no later than a week ago, the `week` rows are a subsequence of the `month` rows |
| Filters.BucketWithinAll | src/components/ClientDashboard.jsx:260-278 | Every bucket's rows are a subsequence of the `all` rows |
| Filters.TodaySoFarWithinWeek | src/components/ClientDashboard.jsx:264-269 | A date passing `today` that is not after now also passes `week` |
| Filters.TodayNotWithinWeek | src/components/ClientDashboard.jsx:264-269 | A date later on the current day passes `today` and fails `week` |
| Catalog.CatalogShape | src/components/ClientDashboard.jsx:206-226 | The catalog has 19 entries, each with a non-empty name and a price between 10 and 150 points |
| Catalog.CatalogNamesDistinct | src/components/ClientDashboard.jsx:206-226 | No two catalog entries share a name |
| Catalog.FindService | src/components/ClientDashboard.jsx:287 | `services.find(s => s.name === name)`: `None` exactly when no entry has the name, otherwise the first entry that has it |
| Catalog.FirstNamedUnique | src/components/ClientDashboard.jsx:287 | The first entry with a given name is unique |
| Catalog.CatalogEntryFirstNamed | src/components/ClientDashboard.jsx:206-226 | Every catalog entry is the first with its name, and its name is not empty |
| Catalog.FindServiceAt | src/components/ClientDashboard.jsx:287 | Looking up a catalog entry's name yields that entry |
| Catalog.PointsRequired | src/components/ClientDashboard.jsx:729 | The read-out shows the price of the first entry with the selected name. It shows `0` when nothing is selected or the name is not in the catalog. |
| Catalog.ValidateServiceRequest | src/components/ClientDashboard.jsx:282-293 | Four verdicts, each characterised both ways. No selection exactly when the name is empty. Unknown exactly when no entry has the name. Insufficient exactly when the named entry costs more than the remaining points. Valid exactly when it costs no more. |
| Catalog.ValidNamesAffordableService | src/components/ClientDashboard.jsx:287-292 | A valid request names a catalog service whose price is within the remaining points |
| Catalog.BoundaryCost | src/components/ClientDashboard.jsx:288 | A price equal to the remaining points is accepted; one point more is refused |
| Catalog.EightyPointsScenario | src/components/ClientDashboard.jsx:282-293 | With 80 points, "No-show Reschedule" is valid and "CRM Setup & Automation" is insufficient |
| Catalog.MissingBalanceRejectsEveryService | src/components/ClientDashboard.jsx:288 | Without a "Remaining Points" cell every catalog service is refused for insufficient credits |
| Catalog.Services | src/components/ClientDashboard.jsx:206-226 | The 19 catalog entries, names and prices as in the source; definition; CatalogShape and CatalogNamesDistinct state its shape |
| Catalog.RemainingPoints | src/components/ClientDashboard.jsx:288 | `clientData["Remaining Points"] || 0`; definition; no contract (NumberField states the default) |
| Submission.RefusedSubmitPostsNothing | src/components/ClientDashboard.jsx:663 | A refused request posts nothing and leaves selection, notes and busy flag alone; a no-selection or insufficient-credits refusal shows an error toast |
| Submission.AcceptedSubmitPostsCatalogPrice | src/components/ClientDashboard.jsx:662-693 | An accepted request posts one payload with the selected name, its catalog price (within the balance) and the notes. The form then ends cleared, idle, with a success toast. |
| Submission.PointsShownAreCharged | src/components/ClientDashboard.jsx:729 | A posted request is charged exactly the "Points Required" the form showed |
| Submission.NetworkOutcomeInvisible | src/components/ClientDashboard.jsx:676-691 | A failed and a delivered post leave the same payload and the same form, with the same kind of toast; only the wording differs |
| Submission.EightyPointsAffordReschedule | src/components/ClientDashboard.jsx:662-693 | A client with 80 points requesting "No-show Reschedule" posts a 20-point request under their email and sees success |
| Submission.EightyPointsCannotAffordCrm | src/components/ClientDashboard.jsx:282-293 | The same client requesting "CRM Setup & Automation" posts nothing and sees the insufficient-credits error |
| Submission.AfterSubmit | src/components/ClientDashboard.jsx:662-693 | The state a submission ends in and the payload it posts; definition; no contract. Dashboard.SubmitRequest is proved against it, and the Submission lemmas state its properties |
| Submission.RequestPayload | src/components/ClientDashboard.jsx:667-674 | The `requestData` object: client name and email from the profile, the service's name and catalog price, the notes and the timestamp; definition; no contract |
| Submission.ValidationToast | src/components/ClientDashboard.jsx:284-290 | The error toast each refusal raises; a pass or a throwing lookup leaves the toast as it was; definition; no contract |
| Submission.Wording | src/components/ClientDashboard.jsx:682-687 | The text of each toast message (also lines 284 and 289); definition; no contract |
| Submission.Dashboard.constructor | src/components/ClientDashboard.jsx:19-22 | The form starts with no selection, no notes, not busy, no toast, nothing posted |
| Submission.Dashboard.SelectService | src/components/ClientDashboard.jsx:713 | The drop-down sets the selected service |
| Submission.Dashboard.EditNotes | src/components/ClientDashboard.jsx:739 | The notes box sets the notes |
| Submission.Dashboard.Validate | src/components/ClientDashboard.jsx:282-293 | Returns the verdict of `ValidateServiceRequest` on the current state and raises exactly the toast that verdict calls for |
| Submission.Dashboard.Post | src/components/ClientDashboard.jsx:676-691 | Appends the payload to the outbox, shows the success toast for either outcome, clears selection and notes, drops the busy flag |
| Submission.Dashboard.SubmitRequest | src/components/ClientDashboard.jsx:662-693 | The new form state is `AfterSubmit` of the old one, and the outbox grows by exactly the payload `AfterSubmit` posts |
| Initials.Words | src/components/ClientDashboard.jsx:1180 | The words of a name are non-empty and contain no space |
| Initials.FirstChars | src/components/ClientDashboard.jsx:1180 | `.map(n => n[0]).join('')`: an empty piece contributes nothing; definition; no contract (FirstCharsOfWords states it) |
| Initials.Initials | src/components/ClientDashboard.jsx:1180 | The badge is `U` when the name is missing or empty, and has no lower-case letter |
| Initials.FirstCharsOfWords | src/components/ClientDashboard.jsx:1180 | Mapping `n => n[0]` and joining keeps exactly the first character of each non-empty piece, in order |
| Initials.InitialsAreFirstLetters | src/components/ClientDashboard.jsx:1180 | For a non-empty name the badge has one letter per word: that word's first character, upper-cased |
| Initials.OneWordName | src/components/ClientDashboard.jsx:1180 | A one-word name yields its upper-cased first character alone |
| Initials.SampleInitials | src/components/ClientDashboard.jsx:1180 | "jane doe" gives "JD" |
| Initials.SampleInitialsDoubleSpace | src/components/ClientDashboard.jsx:1180 | "Jane  Doe" (two spaces) also gives "JD" |

## Left out

- Network I/O is not modelled. This covers the record-store fetches (the loaders at lines 58-168 and `src/api/airtable.js`), the query-string encoding and the webhook POST. Only whether the POST's `fetch` resolved or threw is modelled, as a parameter. The response status is not inspected by the source, so it is not modelled either.
- Authentication, browser storage and routing (`src/components/Login.jsx`, `src/App.jsx`) are left out, being wrappers over external libraries.
- The settings page (`src/components/Settings.jsx`) is not part of this model. It is a fetch plus rendering.
- Rendering, styling, dark mode and the sidebar toggles are left out, being presentation only.
- The toast's three-second auto-dismiss (line 231) is a timer and is left out. The model keeps the toast as last shown.
- Date parsing, `toDateString`, `setDate`/`setMonth` calendar arithmetic and time zones are parameters or simplified, as described above. Filters.DateMatches treats a week as exactly seven days of milliseconds and "the same day" as the same day-long interval of the clock, so it does not model daylight-saving shifts or local-time day boundaries.
- Filters.FilterServiceRequests reads one `Clock` for the whole pass. The source calls `new Date()` once per row (line 263), so a pass that straddles a day or a millisecond boundary can compare rows against slightly different instants. The model does not capture that drift.
- Currency and locale formatting of purchases (line 879) are presentation and are left out.
- The AI-tools `handleServiceRequest` (lines 295-319) is left out. It posts without validation and always charges 100 points. It is a separate path that the request form does not use.
- Points and cell numbers are unbounded integers. The source's floating-point numbers, with fractional values and precision loss, are not modelled.
- Records.TextField and Records.NumberField assume each column holds one type of cell. A number in a text column reads as `''`, where JavaScript would keep the number, and `toLowerCase` on it would throw.
- Initials.FirstChars takes a word's first character as a whole Unicode scalar value. The source's `n[0]` takes the first UTF-16 code unit, so for a word starting outside the Basic Multilingual Plane (such as U+20BB7) the source's badge holds a lone high surrogate and the model's holds the whole character.
- Initials.Initials models only a text "Client Name". A number there makes `split` throw in the source.
- JsString.ToLowerCase and JsString.ToUpperCase map ASCII letters only. JavaScript's full Unicode case mapping is not modelled.
- Submission.Dashboard.Validate: the `TypeError` thrown for a name missing from the catalog is modelled as the verdict `UnknownService`, which changes nothing. The unhandled promise rejection that follows is not modelled.
- Submission.Dashboard.SubmitRequest runs to completion in one step. The `await` between setting `loading` and the post's outcome, and any handler that runs meanwhile, are not modelled.
