# HostIT check-in and registration core, in Dafny

This project models the event check-in and registration core of the HostIT
website:

- **Guest-list route.** `GET /api/luma/get-guests` proxies Luma's guest list. With `all=1` it follows
  `next_cursor` from page to page under a safety cap.
- **Luma client library.** `lib/luma.ts` fetches a whole guest list, or one guest by e-mail.
- **Verified-count route.** `GET /api/attendance/verified-count` counts today's attendance records that are
  marked present.
- **Check-in dashboards.** There are two:
  - the Luma-backed `CheckinTab`;
  - the Google-Sheets-backed `FuelAfricaCheckinTab`.

  Each loads registrations, offers an e-mail typeahead and an exact e-mail search, and verifies
  attendees. Each keeps the set of e-mails verified in the session.
- **Registration route.** `POST /api/register-fuel-africa` stores a registration for the
  "Fuel Africa Event", at most once per e-mail.
- **Storage schemas.** The mongoose `Registration` and `Event` schemas, with their length limits,
  defaults, enumerations and unique indexes.
- **Registration form.** `RegistrationModal` validates the form and submits it.
- **Sheet hook.** The `useGoogleSheetData` hook loads a sheet's headers and rows.

Network requests, the database, the environment and the clock never appear directly. Each one is an
input:

- An upstream service is a function from request to reply.
- A `fetch` that a component awaits is a value that says how it settled (`Js.Fetch`).
- The database is the state of a class.
- "now" is a parameter.

Three foundation modules hold the JavaScript semantics the core relies on:

- `Js`: `undefined`/`null` as `None`, truthiness, `||` and `??`.
- `Text`: `toLowerCase` on ASCII, `trim` with the ECMAScript whitespace set, `includes`, and decimal
  rendering of numbers.
- `Seqs`: `filter`, `slice`, `reverse` and order-preservation facts.

Where the source changes state step by step, the model keeps that form:

- The React components and the hook are classes whose fields are the component state. Their methods
  are the handlers.
- The route's pagination loop is a `while` loop. It is proved equal to a recursive specification
  (`Walk`).
- The Fuel Africa dashboard reverses its filtered rows in place on an array.
- The form check walks the list of required fields.

Each dashboard's class invariant `Valid()` holds two facts:

- The displayed count equals the number of loaded registrations.
- An attendee shown as verified has an e-mail in the verified set.

## Model

| member | source | states |
|---|---|---|
| GetGuestsRoute.Get | src/app/api/luma/get-guests/route.ts:13-88 | The handler equals the route specification `Serve` (400 without an event id, 500 without a key, one passthrough call without `all`, the paginating walk with it), makes at most 101 upstream calls, and a collected reply's `count` is the number of its entries |
| GetGuestsRoute.FetchAllPages | src/app/api/luma/get-guests/route.ts:54-81 | The `while (true)` loop makes exactly the calls of the walk `Walk` from the query's cursor and answers `Settle` of them: the concatenated entries, their count and the last cursor, or the failing page's status and text |
| GetGuestsRoute.AdvanceWalk | src/app/api/luma/get-guests/route.ts:59-79 | One turn of the loop makes the next call of the walk, with the cursor held, and the walk ends there exactly when the loop breaks |
| GetGuestsRoute.AllEntriesSnoc | src/app/api/luma/get-guests/route.ts:74-75 | Pushing a page's entries extends the collected entries by exactly that page's entries (an absent or non-array `entries` adds none) |
| GetGuestsRoute.WalkBounded | src/app/api/luma/get-guests/route.ts:77-78 | The loop always terminates: from page counter `p` it makes between 1 and `101 - p` calls |
| GetGuestsRoute.WalkLinks | src/app/api/luma/get-guests/route.ts:60-78 | The calls form a cursor chain: the first carries the held cursor, each later one the `next_cursor` of the previous reply, every reply but the last is ok with a truthy cursor, and a last reply with a cursor means the cap was hit |
| GetGuestsRoute.CursorOnlyAtCap | src/app/api/luma/get-guests/route.ts:76-81 | A successful paginated reply carries a non-null `next_cursor` only when all 101 calls were made |
| GetGuestsRoute.FailedPageAborts | src/app/api/luma/get-guests/route.ts:69-72 | A non-ok page is the last one fetched and the route answers with its status and text (or status text), dropping what was collected |
| GetGuestsRoute.EndlessCursorsHitCap | src/app/api/luma/get-guests/route.ts:76-78 | An upstream that always returns a cursor (a cursor cycle) still ends the walk, after exactly `101 - p` calls |
| GetGuestsRoute.EndlessCursorsRoute | src/app/api/luma/get-guests/route.ts:54-81 | With `all`, an endlessly cursoring upstream yields 101 calls and a successful reply with a cursor and a consistent count |
| GetGuestsRoute.MissingEventIdRejected | src/app/api/luma/get-guests/route.ts:16-24 | Without an event id from the query or either environment variable the route answers 400 "Missing event_api_id" and calls nothing |
| GetGuestsRoute.FirstRequestCursor | src/app/api/luma/get-guests/route.ts:37-66 | The first upstream call carries the event id and pagination limit, and the query's `pagination_cursor` only on the paginating path |
| GetGuestsRoute.Serve | src/app/api/luma/get-guests/route.ts:13-88 | The route makes at most 101 upstream calls and makes none exactly when the event id or the API key is missing. A successful reply's count is the number of its entries |
| GetGuestsRoute.Walk | src/app/api/luma/get-guests/route.ts:59-79 | The walk makes at least one call. The first call carries the held cursor (or null) and gets the upstream's reply for that page |
| GetGuestsRoute.Settle | src/app/api/luma/get-guests/route.ts:69-81 | The walk fails exactly when its last reply is non-ok or unparsable. Otherwise the answer holds every page's entries, in order, with their count |
| LumaClient.MapGuest | src/lib/luma.ts:44-50 | A mapped guest is checked in exactly when the raw `checked_in` is `true`; a `null` entry maps to a guest with every field undefined |
| LumaClient.MapGuests | src/lib/luma.ts:43-50 | `entries.map` keeps the number and the order of guests, each mapped by `MapGuest` |
| LumaClient.GuestListOutcome | src/lib/luma.ts:19-51 | `fetchLumEventGuests` fails with "Missing Luma event_api_id" on an empty id, with "Missing NEXT_PUBLIC_LUMA_API_KEY" without a key, with "Luma error: status text" on a non-ok reply, sends 5000 by default, and otherwise returns one mapped guest per entry in order |
| LumaClient.GuestByEmailOutcome | src/lib/luma.ts:53-86 | `fetchLumGuestByEmail` finds a guest exactly when the reply is ok, parses and has a guest; a non-ok reply is `null`, not an error |
| LumaClient.FetchEventGuests | src/lib/luma.ts:19-51 | An empty event id fails with "Missing Luma event_api_id". A success needs a present key and an ok reply with a guest list |
| LumaClient.FetchGuestByEmail | src/lib/luma.ts:53-86 | An empty event id fails with "Missing Luma event_api_id". A success needs an id and a key, and a found guest comes only from an ok reply that holds a guest |
| VerifiedCountRoute.ToIsoDate | src/app/api/attendance/verified-count/route.ts:5-7 | The day is the first ten characters of the ISO timestamp |
| VerifiedCountRoute.CountedExactly | src/app/api/attendance/verified-count/route.ts:21-24 | A record is counted exactly when it was created today and `isPresent === true`; the count never exceeds the number of records |
| VerifiedCountRoute.CountAppend | src/app/api/attendance/verified-count/route.ts:21-24 | Counting is additive over concatenated batches of records |
| VerifiedCountRoute.CountOne | src/app/api/attendance/verified-count/route.ts:21-24 | A single record counts 1 when it qualifies and 0 otherwise |
| VerifiedCountRoute.NonArrayCountsZero | src/app/api/attendance/verified-count/route.ts:17-18 | An ok reply whose `data` is missing or not an array counts 0 |
| VerifiedCountRoute.FailurePassedThrough | src/app/api/attendance/verified-count/route.ts:12-16 | A non-ok backend reply is answered with its own status and no count. A request that never reaches the backend is a 500 |
| VerifiedCountRoute.RespondCountsToday | src/app/api/attendance/verified-count/route.ts:17-28 | An ok reply with dated records answers with the number counted today, at most the number of records; one invalid date makes the whole answer a 500 "Invalid time value" |
| VerifiedCountRoute.PresenceIsStrict | src/app/api/attendance/verified-count/route.ts:23 | Records present as the string "true" or the number 1 are not counted; `true` is |
| VerifiedCountRoute.Respond | src/app/api/attendance/verified-count/route.ts:9-30 | The route answers a count only for an ok backend reply whose body parsed, and that count never exceeds the number of records in `data` |
| CheckinLookup.Suggestions | src/components/dashboard/CheckinTab.tsx:113-130 | A query shorter than 2 after trimming gives no suggestions; otherwise at most 10 registrations, each one loaded and matching the query case-insensitively |
| CheckinLookup.SuggestionsInOrder | src/components/dashboard/CheckinTab.tsx:125-128 | Suggestions keep the order of the loaded registrations |
| CheckinLookup.SuggestionsComplete | src/components/dashboard/CheckinTab.tsx:125-128 | A list shorter than 10 misses no matching registration; a full list is the first ten matches |
| CheckinLookup.FindByEmail | src/components/dashboard/CheckinTab.tsx:230-234 | The search finds nothing exactly when no registration's e-mail equals the query up to case; a hit is a loaded registration with that e-mail |
| CheckinLookup.FindByEmailFirst | src/components/dashboard/CheckinTab.tsx:230-232 | A search hit is the first registration with that e-mail |
| CheckinLookup.SearchIgnoresCase | src/components/dashboard/CheckinTab.tsx:230-232 | Queries equal up to case find the same registration |
| CheckinLookup.FindSameTest | src/components/dashboard/CheckinTab.tsx:230-232 | Two queries that match the same registrations find the same registration |
| CheckinLookup.VerifiedSetGrowth | src/components/dashboard/CheckinTab.tsx:173-183 | Recording a verified e-mail puts it in the set; `verifiedCount` grows by one for a new e-mail and stays put for a known one |
| CheckinTab.EntryToRegistration | src/components/dashboard/CheckinTab.tsx:75-82 | A mapped entry's e-mail is `user_email \|\| email \|\| ""` and its id is `key-index`; the mapping throws exactly for a non-null entry without `guest` or without objects at answers 0 and 1 |
| CheckinTab.MapEntries | src/components/dashboard/CheckinTab.tsx:74-82 | The mapping succeeds exactly when every entry maps, and then yields one registration per entry, in order |
| CheckinTab.LoadedRegistrations | src/components/dashboard/CheckinTab.tsx:64-84 | A load yields registrations only for an ok, parsed reply, one per entry (`entries \|\| []`) with that entry's e-mail |
| CheckinTab.TodayCount | src/components/dashboard/CheckinTab.tsx:99 | The stored count is the reply's `count` when it is a number, else 0 |
| CheckinTab.TrailingDigitsAfterDash | src/components/dashboard/CheckinTab.tsx:76 | An id ending in a dash and a decimal index has exactly that index's digits at its end |
| CheckinTab.IdSuffixDetermines | src/components/dashboard/CheckinTab.tsx:76 | Equal ids have equal indexes |
| CheckinTab.MappedIdsDistinct | src/components/dashboard/CheckinTab.tsx:75-82 | Mapped registrations have pairwise distinct ids, as the list keys need |
| CheckinTab.CheckInTab.constructor | src/components/dashboard/CheckinTab.tsx:43-61 | The initial state: nothing loaded, empty box, no attendee open, empty verified set, count 0 |
| CheckinTab.CheckInTab.FetchAllRegistrations | src/components/dashboard/CheckinTab.tsx:64-91 | A successful load replaces the registrations and their count; a failed one keeps both; loading ends false; nothing else changes |
| CheckinTab.CheckInTab.FetchVerifiedTodayCount | src/components/dashboard/CheckinTab.tsx:94-105 | A delivered reply sets today's count by `TodayCount`; otherwise it is kept; nothing else changes |
| CheckinTab.CheckInTab.HandleInputChange | src/components/dashboard/CheckinTab.tsx:113-130 | The box takes the value and the suggestions become `Suggestions` of the loaded registrations |
| CheckinTab.CheckInTab.OpenAttendee | src/components/dashboard/CheckinTab.tsx:133-154 | The attendee is opened and the box shows its e-mail; an ok status reply decides the shown status and adds a verified e-mail to the set; otherwise the set decides |
| CheckinTab.CheckInTab.Search | src/components/dashboard/CheckinTab.tsx:226-238 | Search opens the registration `FindByEmail` finds and reports whether one was found. On a hit the box shows the attendee's e-mail and the suggestions close. A delivered status reply then decides the shown status and, when truthy, adds the e-mail to the verified set; otherwise the set decides. A miss changes nothing shown. `loading`, `verifying` and today's count never change |
| CheckinTab.CheckInTab.HandleVerify | src/components/dashboard/CheckinTab.tsx:157-181 | Without an open attendee nothing happens; otherwise the request is (e-mail, "the-elite-experience", 1), and only an ok reply adds the e-mail and marks the attendee verified |
| CheckinTab.CheckInTab.VerifiedCount | src/components/dashboard/CheckinTab.tsx:183 | `verifiedCount` is 0 exactly when nobody has been verified in the session |
| FuelAfricaCheckinTab.StoredRowsUsable | src/components/dashboard/FuelAfricaCheckinTab.tsx:76-99 | Every stored registration has a non-empty e-mail with "@" and is the row at its 1-based id, with the columns the form lacks set to null |
| FuelAfricaCheckinTab.RowKeptIffUsable | src/components/dashboard/FuelAfricaCheckinTab.tsx:82-97 | A row is kept exactly when its e-mail cell is non-empty and contains "@" |
| FuelAfricaCheckinTab.MostRecentFirst | src/components/dashboard/FuelAfricaCheckinTab.tsx:95-99 | Stored registrations are in strictly decreasing row order |
| FuelAfricaCheckinTab.RowToRegistration | src/components/dashboard/FuelAfricaCheckinTab.tsx:76-92 | Row `i` becomes the registration with id `i + 1`. Its e-mail is empty exactly when the e-mail cell is missing or empty. The columns the form lacks are null |
| FuelAfricaCheckinTab.SheetRegistrations | src/components/dashboard/FuelAfricaCheckinTab.tsx:95-99 | The stored list never holds more registrations than the sheet has rows |
| FuelAfricaCheckinTab.LoadedRows | src/components/dashboard/FuelAfricaCheckinTab.tsx:63-76 | Rows are loaded only from an ok reply whose body parsed, and they are that body's `data` |
| FuelAfricaCheckinTab.StoredRowUsable | src/components/dashboard/FuelAfricaCheckinTab.tsx:76-99 | A stored registration has a usable e-mail and an id between 1 and the number of rows, and it is the mapping of the row at that id |
| FuelAfricaCheckinTab.FuelAfricaCheckinTab.constructor | src/components/dashboard/FuelAfricaCheckinTab.tsx:40-57 | The initial state: nothing loaded, empty box, no attendee open, empty verified set |
| FuelAfricaCheckinTab.FuelAfricaCheckinTab.FetchRegistrationsFromSheets | src/components/dashboard/FuelAfricaCheckinTab.tsx:60-107 | A successful load stores the usable rows in reverse order, with their count; a failed request, a truthy `error` or missing `data` keeps the previous list; loading ends false |
| FuelAfricaCheckinTab.FuelAfricaCheckinTab.HandleInputChange | src/components/dashboard/FuelAfricaCheckinTab.tsx:116-133 | The box takes the value and the suggestions become `Suggestions` of the loaded registrations |
| FuelAfricaCheckinTab.FuelAfricaCheckinTab.OpenAttendee | src/components/dashboard/FuelAfricaCheckinTab.tsx:136-143 | The attendee is opened and shown verified exactly when its e-mail is in the verified set |
| FuelAfricaCheckinTab.FuelAfricaCheckinTab.Search | src/components/dashboard/FuelAfricaCheckinTab.tsx:215-227 | Search opens the registration `FindByEmail` finds and reports whether one was found. On a hit the box shows its e-mail, the suggestions close, and the verified set decides the shown status. A miss changes nothing shown. `loading` and `verifying` never change |
| FuelAfricaCheckinTab.FuelAfricaCheckinTab.HandleVerify | src/components/dashboard/FuelAfricaCheckinTab.tsx:146-170 | Without an open attendee nothing happens; otherwise the request is (e-mail, "fuel-africa", 1), and only an ok reply adds the e-mail and marks the attendee verified |
| FuelAfricaCheckinTab.FuelAfricaCheckinTab.VerifiedCount | src/components/dashboard/FuelAfricaCheckinTab.tsx:172 | `verifiedCount` is 0 exactly when nobody has been verified in the session |
| RegistrationModel.Create | src/models/registrationModel.ts:21-87 | Creation succeeds exactly when no schema check fails (required non-empty event name, name and e-mail; every maximum length); the result is valid, keeps the id, and defaults the newsletter flag to false and the date to now; a refusal names at least one path |
| RegistrationModel.CreateAcceptsExactlyValid | src/models/registrationModel.ts:21-87 | Creating from a registration's own fields succeeds exactly when it satisfies the schema, and then returns it unchanged |
| RegistrationModel.KeyedStoreUnique | src/models/registrationModel.ts:89-90 | In a store keyed by (event id, e-mail) no two registrations share that key |
| RegistrationModel.Insert | src/models/registrationModel.ts:89-90 | The unique index refuses an insert exactly when the (event id, e-mail) key is taken; otherwise it adds one entry and keeps the others |
| RegistrationModel.InsertKeepsKeyed | src/models/registrationModel.ts:89-90 | Inserting keeps every registration under its own key |
| EventModel.EventTypeNamesRoundTrip | src/models/eventModel.ts:49-53 | The six event type names parse back to their types and nothing else parses |
| EventModel.Create | src/models/eventModel.ts:16-61 | Creation succeeds exactly when no schema check fails; the result is valid and defaults `isActive` to true, the type to "conference" and the organizer to "HostIT" |
| EventModel.FindByName | src/models/eventModel.ts:17-22 | `findOne({ name })` finds nothing exactly when no event has that name; a hit is a stored event with that name |
| EventModel.FindByNameUnique | src/models/eventModel.ts:64 | With unique names the lookup by an event's name returns that event |
| EventModel.InsertEvent | src/models/eventModel.ts:64 | The unique name index refuses an event exactly when its name is taken; otherwise the event is appended |
| EventModel.InsertKeepsNamesUnique | src/models/eventModel.ts:64 | Inserting keeps event names unique |
| RegisterFuelAfricaRoute.RecordInput | src/app/api/register-fuel-africa/route.ts:49-63 | The stored document takes the event's id and name and the body's name, e-mail, phone and country as sent. Each of location, gender, github, telegram, X handle and role is stored when truthy and null otherwise. Address and newsletter are unset, and the registration date is "now" |
| RegisterFuelAfricaRoute.AddKeepsStoreValid | src/app/api/register-fuel-africa/route.ts:49-63 | Storing a valid registration under a free key keeps the store keyed, schema-valid and below the id counter |
| RegisterFuelAfricaRoute.FuelAfricaRegistrations.constructor | src/app/api/register-fuel-africa/route.ts:19-21 | A database holds the given events and no registrations |
| RegisterFuelAfricaRoute.FuelAfricaRegistrations.Add | src/app/api/register-fuel-africa/route.ts:49-63 | Adds exactly one registration under its key and advances the id counter, keeping the store valid |
| RegisterFuelAfricaRoute.FuelAfricaRegistrations.Post | src/app/api/register-fuel-africa/route.ts:19-89 | The handler answers `Answer` of the body, the events and the old store. For a body with the required fields, an existing event and a free key, a successful create answers 201 and stores the registration under its key. A failed create answers the 500 "Failed to create registration" and stores nothing |
| RegisterFuelAfricaRoute.LongPhoneIsServerError | src/app/api/register-fuel-africa/route.ts:25-63 | A phone longer than 15 characters passes the route's required-field check, so the answer is never a 400. With the event present and the key free, the schema refuses the phone and the route answers the 500 "Failed to create registration" |
| RegisterFuelAfricaRoute.RouteRequiresMoreThanSchema | src/app/api/register-fuel-africa/route.ts:25-30 | A body without phone and country satisfies the schema yet the route refuses it |
| RegisterFuelAfricaRoute.HasRequiredFields | src/app/api/register-fuel-africa/route.ts:25-30 | A body passes the route's check only when its name and e-mail are present and non-empty |
| RegisterFuelAfricaRoute.AnswerSucceedsExactly | src/app/api/register-fuel-africa/route.ts:19-89 | The route answers 201 exactly when the body parses and has the fields, the event exists, the key is free and the create succeeds. It answers 409 exactly when the key is taken and 400 exactly when a field is missing. Every answer is 201, 400, 409 or 500 |
| RegistrationModal.Set | src/components/RegistrationModal.tsx:47-50 | Setting a field changes that field to the value and no other |
| RegistrationModal.OptionalFieldsIrrelevant | src/components/RegistrationModal.tsx:52-63 | Changing an optional field never changes whether the form is complete |
| RegistrationModal.CompleteFormPassesRoute | src/components/RegistrationModal.tsx:52-63 | A form the client accepts also passes the route's required-field check |
| RegistrationModal.BlankNamePassesRouteOnly | src/components/RegistrationModal.tsx:59-60 | The converse fails: a name of one space passes the route but not the form |
| RegistrationModal.Complete | src/components/RegistrationModal.tsx:52-63 | A complete form has non-empty name, e-mail, phone and country |
| RegistrationModal.RegistrationModal.constructor | src/components/RegistrationModal.tsx:33-45 | The form starts with all ten fields empty and not submitting |
| RegistrationModal.RegistrationModal.ValidateForm | src/components/RegistrationModal.tsx:52-63 | The loop over the required fields accepts exactly when name, e-mail, phone and country are non-blank after trimming |
| RegistrationModal.RegistrationModal.HandleInputChange | src/components/RegistrationModal.tsx:47-50 | The named field takes the value; all other fields and the submitting flag are kept |
| RegistrationModal.RegistrationModal.HandleSubmit | src/components/RegistrationModal.tsx:65-109 | An incomplete form sends nothing and changes nothing; a complete one is sent as it stands, cleared only on an ok reply, and submitting ends false |
| SheetDataHook.Outcome | src/hooks/useGoogleSheetData.ts:23-49 | A fetch loads exactly when the reply is ok and parses to a sheet without `error`; a non-ok reply fails with "HTTP error! status: N" |
| SheetDataHook.ErrorResultMessage | src/hooks/useGoogleSheetData.ts:36-40 | An `error` key fails the fetch with its text when it is a string (even ""), else with "Unknown error occurred" |
| SheetDataHook.HttpErrorMessageInjective | src/hooks/useGoogleSheetData.ts:28 | Different statuses give different HTTP error messages |
| SheetDataHook.SheetData.constructor | src/hooks/useGoogleSheetData.ts:5-12 | The range defaults to "Form Responses 1"; data and headers start empty, loading true, no error |
| SheetDataHook.SheetData.BeginFetch | src/hooks/useGoogleSheetData.ts:14-25 | Without a sheet id only loading drops and nothing is requested; otherwise loading starts, the error clears and the sheet is requested with the range |
| SheetDataHook.SheetData.CompleteFetch | src/hooks/useGoogleSheetData.ts:27-52 | A failure sets the error and keeps data and headers; a load replaces headers and data (`\|\| []`); loading ends false |
| SheetDataHook.SheetData.FetchData | src/hooks/useGoogleSheetData.ts:14-53 | A whole `fetchData`: no request without a sheet id; otherwise the request and then either the error or the new data, with loading false |
| Text.Lower | src/components/dashboard/CheckinTab.tsx:126 | `toLowerCase` keeps the length and lowers each character |
| Text.LowerIdempotent | src/components/dashboard/CheckinTab.tsx:231 | Lowering twice is lowering once |
| Text.TrimStartShape | src/components/dashboard/CheckinTab.tsx:119 | Trimming the start drops only leading whitespace and leaves a string that starts with a non-space, if any |
| Text.TrimEndShape | src/components/dashboard/CheckinTab.tsx:119 | Trimming the end drops only trailing whitespace and leaves a string that ends with a non-space, if any |
| Text.TrimEmptyIffBlank | src/components/RegistrationModal.tsx:60 | `trim()` is empty exactly when the string is all whitespace |
| Text.ContainsIffOccurs | src/components/dashboard/CheckinTab.tsx:126 | `includes` holds exactly when the needle occurs at some position |
| Text.Decimal | src/lib/luma.ts:28 | A number's decimal rendering is non-empty and all digits |
| Text.DecimalInjective | src/lib/luma.ts:28 | Distinct numbers render differently |
| Seqs.Filter | src/components/dashboard/FuelAfricaCheckinTab.tsx:95-97 | `filter` keeps exactly the elements that pass, and no more than it was given |
| Seqs.FilterAppend | src/app/api/attendance/verified-count/route.ts:21-24 | Filtering distributes over concatenation |
| Seqs.FilterSingleton | src/app/api/attendance/verified-count/route.ts:21-24 | Filtering one element keeps it exactly when it passes |
| Seqs.FilterAll | src/components/dashboard/FuelAfricaCheckinTab.tsx:95-97 | A filter every element passes returns the sequence unchanged |
| Seqs.FilterIsSubsequence | src/components/dashboard/CheckinTab.tsx:125-127 | `filter` keeps the relative order of elements |
| Seqs.SubsequencePrefix | src/components/dashboard/CheckinTab.tsx:128 | A prefix of an order-preserving selection is one too |
| Seqs.Take | src/components/dashboard/CheckinTab.tsx:128 | `slice(0, n)` has length min(n, length), is a prefix, and holds only elements of the input |
| Seqs.Reverse | src/components/dashboard/FuelAfricaCheckinTab.tsx:99 | The reversal has the same length |
| Seqs.ReverseAt | src/components/dashboard/FuelAfricaCheckinTab.tsx:99 | Element `i` of the reversal is element `n - 1 - i` of the input |
| Seqs.ReverseIndexwise | src/components/dashboard/FuelAfricaCheckinTab.tsx:99 | At every position the reversal holds the input's element counted from the back |
| Seqs.ReverseInvolution | src/components/dashboard/FuelAfricaCheckinTab.tsx:99 | Reversing twice gives the input back |
| Seqs.ReversePermutes | src/components/dashboard/FuelAfricaCheckinTab.tsx:99 | Reversal keeps the multiset of elements |
| Seqs.FilterAscending | src/components/dashboard/FuelAfricaCheckinTab.tsx:95-97 | Filtering keeps a strictly ascending key order |
| Seqs.FilterAbove | src/components/dashboard/FuelAfricaCheckinTab.tsx:95-97 | Elements that survive a filter of a sequence whose keys all exceed a bound still exceed it |
| Seqs.PrependAscending | src/components/dashboard/FuelAfricaCheckinTab.tsx:95-97 | Putting an element below every key in front of an ascending sequence keeps it ascending |
| Seqs.ReverseAscending | src/components/dashboard/FuelAfricaCheckinTab.tsx:99 | Reversing an ascending sequence makes it strictly descending |
| Seqs.ReverseInPlace | src/components/dashboard/FuelAfricaCheckinTab.tsx:99 | Reversing the array in place leaves its reversal |

## Left out

- Network, database, environment and clock: every HTTP call, every MongoDB query, every environment
  variable and "now" is an input. Query strings, headers and URLs are reduced to the fields the code
  sets. `connectDB` and `cache: "no-store"` are not modelled.
- Dates: `new Date(...)`, `toISOString` and UTC day arithmetic are abstract. An attendance record
  carries the ISO string of its `createdAt`, or `None` when that date is invalid, where
  `toISOString` throws "Invalid time value".
- `toLowerCase` and the other string functions are modelled on ASCII only. Unicode case mapping is
  not modelled.
- NaN and non-string cell values are not modelled. Sheet cells are strings.
- Toasts, `console` output, rendering and `onClose` are left out because they change no state the
  model tracks.
- The 200 ms typeahead debounce is taken as immediate, so a burst of keystrokes is one update with
  the last value. Interleavings of several pending timers or fetches are not modelled. Each handler
  runs to completion with its reply given.
- The `loading` and `verifying` flags are seen only at the end of a handler. Their intermediate
  `true` state, visible while a request is pending, is not modelled.
- The register route's check-then-insert race is not modelled. Two concurrent requests for the same
  key both pass the 409 check, and the unique index turns the second insert into a 500. The model
  runs requests one at a time.
- The register route's "An unknown error occurred" branch is not modelled, because every failure in
  the modelled route is an `Error`.
- The register route dereferences `event._id` without checking that the event exists. This throws a
  `TypeError`, which the model answers with the 500 "Failed to create registration".
- The mongoose `timestamps` (`createdAt`, `updatedAt`) and the non-unique indexes on
  `isActive`/`startDate` are not modelled. They affect no behaviour of the core.
- The `Event` date fields (`startDate`, `endDate`, `registrationDeadline`) are abstract integers.
  `description` and `maxCapacity` are checked only through their schema limits.
- `CheckinTab` treats a truthy non-array `entries` as an array and calls `.map` on it. The model
  types `entries` as an array or absent.
- `lib/luma.ts` maps a guest identically in two places. The model states that mapping once, as
  `LumaClient.MapGuest`.
- RegistrationModel.Create: string lengths count Unicode scalar values, not the UTF-16 code units that
  `maxlength` counts. A value with astral characters, such as an emoji, can pass here and fail there.
- EventModel.Create: string lengths count Unicode scalar values, not UTF-16 code units, so an astral
  character counts 1 here where `maxlength` counts 2.
- RegisterFuelAfricaRoute.LongPhoneIsServerError: "longer than 15" is counted in Unicode scalar
  values, not UTF-16 code units.
- CheckinLookup.Suggestions: the 2-character minimum counts Unicode scalar values, not UTF-16 code
  units. A single emoji is one character here but passes the minimum in the browser.
- The Fuel Africa dashboard's mount effect, which loads only when the sheet id is truthy, is not a
  separate member. A load is modelled by `FetchRegistrationsFromSheets` with its reply given.
- `src/app/api/sheets/[sheetId]/route.ts` is not part of this model. Both the Fuel Africa dashboard
  and the sheet hook take its reply as an input.
- Notes on behaviour, as the code has it:
  - The code makes up to 101 upstream calls (`page > 100`), not 100.
  - Stored e-mails are neither trimmed nor lower-cased. Only the comparisons lower-case them.
  - A verification reply that is not ok is a plain failure, with no "already verified" case.
  - There is no periodic refresh and no coalescing of concurrent refreshes.
