# Cal.com chat assistant: a Dafny model of its core

The assistant books, lists and cancels Cal.com meetings from a chat. A
language model picks one of three tools. The Python back end runs the tool
against the Cal.com API and wraps the answer in a `function_return` envelope
(`{status, result: {code, message, data}}`). The TypeScript front end turns
each envelope into Markdown.

This project models that core:

- **Envelope and outcome codes.** `outcomes.dfy` models the envelope and the thirteen outcome codes of `backend/cal.py`. `Outcomes.Consistent` names the data shape each code carries.
- **Catalog retries.** `provider.dfy` models the bounded retry loop of `get_all_event_types`.
- **Time normalisation.** `timestamps.dfy` models `convert_to_utc_format` and `get_day_range_utc`. Dates are integers only, and an instant's meaning is its seconds since 0001-01-01, so "same instant" is a proved statement, not a string comparison.
- **Entity resolution.** `resolver.dfy` models `find_event_id_by_name` (exact title/slug match, then the best containment score) and `find_booking_uid_by_name_and_datetime` (exact title and UTC start).
- **Tools.** `orchestrator.dfy` models `create_a_cal_booking`, `list_all_cal_bookings` and `cancel_user_booking`.
- **Bulk cancellation.** `bulk_cancel.dfy` models the helpers in `backend/experiments/cal_helpers.py`.
- **Front end.** The JSON the Flask handler sends is in `wire.dfy`. The JavaScript value semantics the formatters rely on are in `js_values.dfy`. `formatters.dfy` models `formatToolResultAsMarkdown` and every formatter as written, plus a corrected switch that fixes the cancellation-failed formatter (see Findings).
- **Sign-in form.** `user_form.dfy` models the validation and field updates of `UserInfoForm.tsx`.

Side effects become parameters and traces:

- **Provider replies are inputs.** Each reply, or the exception its request raised, is a parameter.
- **Requests are a trace.** Every back-end operation returns a `Run`: its outcome (or the Python exception it lets escape), the requests it issued in order, and the waits it asked for.
- **Browser and serialiser calls are parameters.** Locale-dependent date printing and `JSON.stringify` are functions passed in through `Formatters.Env`.
- **The time-zone database is a parameter.** `Timestamps.ZoneRules` gives the offset a zone name assigns to a local time.

## Model

| member | source | states |
|---|---|---|
| ProviderClient.RetryFrom | backend/cal.py:160-177 | From any attempt on, the loop stops at the first reply without an `error` key or after the third attempt; every wait it asks for is 0.5 s times the attempt number; a run of failures ends with the last reply, or an error reply if the last attempt threw |
| ProviderClient.GetAllEventTypes | backend/cal.py:152-177 | The first reply without an `error` key is returned after exactly as many attempts; with three failures the last reply (or an error reply for an exception) is returned; one wait fewer than attempts, 0.5 s then 1 s, totalling at most 1.5 s |
| ProviderClient.BackoffTotal | backend/cal.py:167-173 | The waits of at most two failed attempts add up to no more than 1.5 s |
| ProviderClient.CatalogCalls | backend/cal.py:155-163 | Each attempt issues one event-type listing for the fixed username |
| Resolver.DenominatorsPositive | backend/cal.py:343-354 | For an event that is not an exact match, neither score divides by zero: a query inside a title or slug has a non-empty title or slug, and a title or slug inside the query has a non-empty query |
| Resolver.ResolveEvent | backend/cal.py:293-380 | The error ladder in source order: an `error` key, then `status == "error"`, then a missing `data`; every outcome is one of the four codes the function can return; the status is success exactly for `FOUND_MATCH`; each outcome carries the data its code promises; the only exception is `KeyError("status")`, raised on a reply with data but no `status` key |
| Resolver.FindEventIdByName | backend/cal.py:284-300 | The lookup issues between one and three catalog requests, waiting between consecutive ones, and resolves the reply the retry loop settles on |
| Resolver.ScanReachesExact | backend/cal.py:325-340 | The scan returns the first exact match in catalog order, whatever candidate it held before |
| Resolver.ExactMatchWins | backend/cal.py:321-340 | When the lowercased, stripped name equals some event's lowercased title or slug, the first such event is returned as an exact match, regardless of the scores of the others |
| Resolver.ScanStep | backend/cal.py:343-354 | One scan step replaces the held candidate exactly when the event's better containment score is strictly greater than the held score |
| Resolver.HoldsAfterStep | backend/cal.py:343-366 | One scan step keeps the candidate the earliest of the highest positive scores seen so far |
| Resolver.ScanUnfold | backend/cal.py:325-366 | Past a non-exact event, the scan continues from the next event with the updated candidate |
| Resolver.ScanFindsFirstBest | backend/cal.py:325-366 | With no exact match, the scan ends holding the earliest event with the greatest positive score, and holding nothing when no event scores above zero |
| Resolver.BestMatchIsFirstHighestScore | backend/cal.py:341-380 | With no exact match, the first event with the highest positive score is the "best match", whether or not the reply has a `status`; ties go to the earlier event; when nothing scores above zero the result is `NO_MATCH`, listing every event in order when the reply's status is "success" and none otherwise, and a reply without `status` raises `KeyError` |
| Resolver.RefsOf | backend/cal.py:368-373 | The no-match list holds one entry per catalog event, in order, with its title, slug and id |
| Resolver.SummariesOf | backend/cal.py:787-797 | The not-found list holds one summary per booking, in order, with its uid, title, start and end |
| Resolver.ResolveBooking | backend/cal.py:730-804 | The same error ladder as the event lookup; the outcome is one of four codes; success exactly for `FOUND_MATCH`, which carries the found booking; each outcome carries the data its code promises; the only exception is `KeyError("status")`, raised on a reply with data but no `status` key |
| Resolver.FindBookingUidByNameAndDatetime | backend/cal.py:712-727 | An unparsable requested start raises `ValueError` before any request; otherwise exactly one listing of upcoming bookings is issued and its reply resolved against the normalised start |
| Resolver.FirstBookingMatchStep | backend/cal.py:760-784 | Each loop iteration returns the booking if its lowercased title and normalised start both match, and moves on otherwise (including when its start cannot be normalised) |
| Resolver.FirstBookingMatchSpec | backend/cal.py:758-784 | The loop finds nothing exactly when no booking matches; otherwise it returns the first matching booking |
| Resolver.BookingLookupIsExact | backend/cal.py:758-804 | A booking is found exactly when its lowercased title equals the normalised name and its start denotes the same UTC instant; the first such booking is returned; otherwise `BOOKING_NOT_FOUND` lists the bookings (when the status is "success"), and a reply without `status` raises `KeyError` |
| Orchestrator.SlotsOn | backend/cal.py:489-491 | The slots under a date key, or none when the reply has no such key |
| Orchestrator.BookIfAvailable | backend/cal.py:469-520 | A slots error gives `SLOTS_REQUEST_FAILED`; the booking request is issued exactly when the reply lists the exact instant under the day's key, and for that instant with the attendee zone default; `ALL_MATCHED` exactly when that request was issued and answered with data |
| Orchestrator.NormalisedHasDayWindow | backend/cal.py:451-462 | Every normalised start has a day window (the window call cannot raise) whose start splits back to the start's own date |
| Orchestrator.CreateFromStart | backend/cal.py:448-527 | The lookup's exception comes first, then the conversion's `ValueError`, then the lookup's error outcome returned unchanged; the lookup's requests are a prefix of the run's; the outcome carries the data its code promises |
| Orchestrator.CreateACalBooking | backend/cal.py:430-527 | The waits are the catalog retries' waits, and every outcome carries the data its code promises |
| Orchestrator.CreateFromStartCalls | backend/cal.py:454-509 | A booking request is issued exactly when the event resolved, the start normalised to `u`, and the slots reply lists `u` under its date; the requests are then the lookup's, the whole-day slots request and the booking for `u` |
| Orchestrator.BookedOnlyIfListed | backend/cal.py:489-509 | The availability step requests a booking exactly when the slots reply lists the instant under its day, and then only that one booking, for the attendee zone default |
| Orchestrator.FoundEventListsItsDay | backend/cal.py:454-491 | Once the event resolves and the start normalises, the requests are the lookup's, one slots request for the start's whole UTC day, then the availability step's |
| Orchestrator.CreateInConcat | backend/cal.py:454-509 | A request sequence asks for a booking exactly when one of its parts does |
| Orchestrator.CreateOnlyForListedSlot | backend/cal.py:448-509 | A booking is created only for an instant the provider listed: the create request is issued exactly when the event resolved and the slots reply lists the normalised instant under its UTC date; the requests are the catalog attempts, the slots request for that whole UTC day, and the booking |
| Orchestrator.CreateStopsAfterFailedLookup | backend/cal.py:448-456 | When the event does not resolve or the start cannot be parsed, only catalog requests are issued and the lookup's outcome or the `ValueError` is returned |
| Orchestrator.InfosOf | backend/cal.py:571-582 | One listed entry per provider booking, in order |
| Orchestrator.ListAllCalBookings | backend/cal.py:552-596 | One request; success exactly when the reply's status is "success"; `EMPTY` exactly for a successful reply with a missing or empty list; `SUCCESS` lists every booking; anything else is `UNKNOWN` carrying the raw reply |
| Orchestrator.ListingPreservesBookings | backend/cal.py:571-589 | Listing loses nothing: each provider booking can be rebuilt from its listed entry, apart from the `startTime`/`endTime` keys the listing does not read |
| Orchestrator.CancelOutcome | backend/cal.py:665-703 | Cancelled exactly when the provider's reply says "success"; otherwise the failure carries the found booking and either the provider's reply (message "Failed to cancel: " plus its message or "Unknown error") or the exception text |
| Orchestrator.CancelUserBooking | backend/cal.py:629-710 | No waits, and every outcome carries the data its code promises |
| Orchestrator.CancelOnlyTheNamedBooking | backend/cal.py:648-667 | A cancellation request is issued exactly when the start normalises, the listing reply is usable and some booking matches name and instant; it then names the uid of the first match, after a single listing request |
| Orchestrator.CancelIssuedIffFound | backend/cal.py:648-667 | Two requests (listing, then cancellation) are issued exactly when the start normalises, the listing is usable and some booking matches |
| Orchestrator.CancelNamesFirstMatch | backend/cal.py:648-667 | When a booking matches, the requests are the upcoming-bookings listing for the user and the cancellation of the first match's uid |
| Orchestrator.CancelFollowsLookup | backend/cal.py:648-667 | The cancellation request follows the lookup's requests exactly when the lookup succeeded, and names the uid it found |
| Orchestrator.LookupFindsFirstMatch | backend/cal.py:758-804 | The booking lookup succeeds exactly when the listing is usable and some booking matches; it then reports the first match |
| Orchestrator.CancelReportsProviderVerdict | backend/cal.py:665-703 | Once the cancellation request is made, the outcome is `BOOKING_FOUND_AND_CANCELLED` exactly when the provider said "success", and an exception is reported with its text |
| Timestamps.ToUtc | backend/utils/datetime.py:58-60 | Shifting to UTC subtracts exactly the offset from the instant, and the result is a valid date and time at most one year away |
| Timestamps.Pad | backend/utils/datetime.py:73 | A `%Y`/`%m`/`%d`/`%H`/`%M`/`%S` field is exactly `w` digits that read back as the number whenever it fits |
| Timestamps.ParseZone | backend/utils/datetime.py:56 | Any offset read from the text is strictly within one day |
| Timestamps.Parse | backend/utils/datetime.py:56 | Every accepted text names a valid date and time in years 1..9999 with an offset strictly within one day |
| Timestamps.FormatDate | backend/utils/datetime.py:41-42 | `%Y-%m-%d` is ten characters |
| Timestamps.FormatClock | backend/utils/datetime.py:41-42 | `%H:%M:%S` is eight characters |
| Timestamps.FormatUtcMillis | backend/utils/datetime.py:73 | The output is 24 characters with `T` at index 10 and ending in `.000Z` |
| Timestamps.FormatUtcMillisDate | backend/utils/datetime.py:73 | The first ten characters of the output are the `%Y-%m-%d` date |
| Timestamps.ParseFormatted | backend/utils/datetime.py:56-73 | Printing a valid time and reading it back with a UTC suffix gives the same wall clock |
| Timestamps.MillisZuluIsUtc | backend/utils/datetime.py:73 | The `.000Z` suffix reads back as UTC |
| Timestamps.AppliedOffset | backend/utils/datetime.py:58-70 | The offset applied is within one day: the text's own, else the user zone's, else none |
| Timestamps.ConvertToUtcFormat | backend/utils/datetime.py:50-77 | Unparsable text raises `ValueError` naming the input; the only exception is `ValueError`; every result has the fixed `YYYY-MM-DDTHH:MM:SS.000Z` shape |
| Timestamps.GetDayRangeUtc | backend/utils/datetime.py:16-47 | Unparsable text raises `ValueError`; the window's bounds are the same date at `T00:00:00Z` and `T23:59:59Z` |
| Timestamps.ToUtcZero | backend/utils/datetime.py:68-70 | A naive time with no zone is taken as UTC unchanged |
| Timestamps.ConvertToUtcFormatMeaning | backend/utils/datetime.py:50-73 | The output reads back as a UTC time denoting the same instant as the input: shifted by the text's offset, else by the offset the user's zone gives that local time, else unchanged |
| Timestamps.ConvertedReadsBack | backend/utils/datetime.py:56-73 | A successful normalisation reads back as UTC and names the local time shifted by the applied offset |
| Timestamps.ConvertToUtcFormatIdempotent | backend/utils/datetime.py:50-73 | Normalising a normalised string returns it unchanged, whatever zone is given the second time, so equal normalised strings mean equal instants |
| Timestamps.WindowBoundsParse | backend/utils/datetime.py:31-43 | The window's bounds read back as midnight and 23:59:59 UTC on the given date |
| Timestamps.DayRangeMatchesConvert | backend/utils/datetime.py:16-43 | The day window succeeds exactly when zone-less normalisation does, and its bounds are the normalised instant's UTC date at 00:00:00 and 23:59:59 |
| Timestamps.DayRangeBracketsInstant | backend/utils/datetime.py:20-43 | Read back, the window's bounds fall on the instant's UTC date, one day less a second apart, and bracket the instant |
| Timestamps.DayBoundsEpochs | backend/utils/datetime.py:31-43 | Midnight and 23:59:59 of a time's own date bracket it and lie one day less a second apart |
| Timestamps.DayRangeOfNormalised | backend/utils/datetime.py:16-43 | The window of a normalised start always exists, and its start splits at `T` back to the start's date |
| Text.TrimBlank | frontend/src/components/UserInfoForm.tsx:29-31 | A trimmed string is empty exactly when every character is whitespace |
| Text.BeforeFirstPrefix | backend/cal.py:489-490 | `split("T")[0]` of a date followed by `T...` is the date, when the date holds no `T` |
| BulkCancel.BookingsForCancellation | backend/experiments/cal_helpers.py:30-62 | Nothing unless the reply is successful with a non-empty list; then one entry per booking, in order, carrying its uid, id, title, `startTime`/`endTime` and status, and its attendees or `[]` when it has none |
| BulkCancel.HelperAgreesWithListingIff | backend/experiments/cal_helpers.py:49-60 | The helper and `list_all_cal_bookings` describe the same bookings identically exactly when every booking's `startTime`/`endTime` equal its `start`/`end` |
| BulkCancel.CancelCalls | backend/experiments/cal_helpers.py:107-110 | One cancellation request per booking, by uid, in order |
| BulkCancel.CancelAllBookings | backend/experiments/cal_helpers.py:65-144 | No bookings gives an empty report with total 0; a dry run cancels nothing and reports the count with `dry_run`; otherwise every booking is cancelled in order and partitioned by the provider's verdict |
| BulkCancel.PartitionIsComplete | backend/experiments/cal_helpers.py:104-144 | The cancelled and failed lists together hold one entry per booking processed |
| BulkCancel.PartitionIsByVerdict | backend/experiments/cal_helpers.py:107-138 | A booking lands among the cancelled exactly when the provider answered "success", and among the failed otherwise, with the exception or the provider's message |
| JsValues.JoinEmpty | frontend/src/store/toolResultFormatters.ts:103 | A joined list is empty exactly when it has no parts or a single empty one |
| Wire.ResponseMessage | backend/cal.py:683-691 | The provider's `message` reaches the front end unchanged, and reads as `undefined` when the provider sent none |
| Wire.SortByDate | backend/main.py:134 | `jsonify` sorts the slots object's keys: the same days, a permutation of the reply's, in ascending date order |
| Wire.InsertKeepsOrder | backend/main.py:134 | Placing a day into an ascending list keeps it ascending |
| Formatters.MapProp | frontend/src/store/toolResultFormatters.ts:103 | `map(a => a.name)` throws exactly when some element is null or undefined, and otherwise reads each element's property in order |
| Formatters.AttendeesText | frontend/src/store/toolResultFormatters.ts:103 | The attendee line renders exactly when the attendees are absent or an array with no null entries |
| Formatters.BookingBlock | frontend/src/store/toolResultFormatters.ts:102-118 | A booking's block renders exactly when the booking is an object whose attendees the line can read |
| Formatters.BookingBlocks | frontend/src/store/toolResultFormatters.ts:101-119 | The list body renders exactly when every booking's block does |
| Formatters.NotFoundBlock | frontend/src/store/toolResultFormatters.ts:142-149 | An entry renders exactly for a non-null booking, and starts with its 1-based number |
| Formatters.NotFoundBlocks | frontend/src/store/toolResultFormatters.ts:140-149 | The not-found body renders exactly when no booking is null or undefined |
| Formatters.EventLines | frontend/src/store/toolResultFormatters.ts:166-169 | One line per event, in order, throwing exactly on a null or undefined event |
| Formatters.SlotLines | frontend/src/store/toolResultFormatters.ts:184-191 | One line per slot, throwing exactly on a null or undefined slot |
| Formatters.DaySections | frontend/src/store/toolResultFormatters.ts:175-192 | One section per date; renders exactly when every date holds an array with no null slot |
| Formatters.DispatchFollowsCode | frontend/src/store/toolResultFormatters.ts:50-89 | The front end's string switch agrees with the back end's code enum: every envelope the back end sends is rendered by the formatter an independent per-code routing table assigns to its code, with its message and data; likewise for the switch with the corrected cancellation-failed formatter |
| Formatters.CodedDispatch | frontend/src/store/toolResultFormatters.ts:50-89 | An element with a readable `result.result` is rendered by its code's route, whatever its status, message and data, in the switch as written and in the corrected one |
| Formatters.EnvelopeReads | frontend/src/store/toolResultFormatters.ts:51-61 | An element without `error` whose `result.result` is an object reaches the switch with that object's code, message and data |
| Formatters.RouteOfWire | frontend/src/store/toolResultFormatters.ts:63-88 | Each of the thirteen codes' wire strings reaches the `case` label the per-code routing table names: both request failures the plain error line, `unexpected_response_format`, `found_match` and `unknown` the raw default |
| Formatters.UnknownToolShowsError | frontend/src/store/toolResultFormatters.ts:51-55 | A result for an unknown tool is shown as an error line naming the tool |
| Formatters.AttendeesFallback | frontend/src/store/toolResultFormatters.ts:103 | "No attendees" is shown exactly when there is no attendee list, it is empty, or its single name renders empty; otherwise the names joined with ", " are shown |
| Formatters.OneBlockPerBooking | frontend/src/store/toolResultFormatters.ts:101-119 | The list body is the blocks of the bookings concatenated in order |
| Formatters.NotFoundNumbering | frontend/src/store/toolResultFormatters.ts:142-149 | The not-found body is the entries concatenated in order and numbered consecutively |
| Formatters.AsWrittenFailsOnRaisedCancellation | frontend/src/store/toolResultFormatters.ts:157-160 | For the envelope the back end sends when the cancellation request raised, the formatter as written throws, and so does `formatToolResultAsMarkdown` on the whole envelope |
| Formatters.CorrectedCancellationFailedRenders | frontend/src/store/toolResultFormatters.ts:157-160 | The corrected formatter renders both failure payloads, showing the exception text or the provider's message; wherever the as-written formatter renders, the two agree |
| Formatters.RefusedCancellationRenders | frontend/src/store/toolResultFormatters.ts:157-160 | When the provider refused the cancellation, both the as-written and the corrected formatter show the found booking with the provider's message, or `undefined` when it sent none |
| Formatters.RaisedCancellationRenders | frontend/src/store/toolResultFormatters.ts:157-160 | When the cancellation request raised, the corrected formatter shows the exception text and the as-written one throws |
| Formatters.ErrorObjectShown | frontend/src/store/toolResultFormatters.ts:157-160 | Any data holding a found booking and an error object renders, in both versions, with the error's `message` |
| Formatters.ExceptionShown | frontend/src/store/toolResultFormatters.ts:157-160 | Any data holding a found booking, no `cancellation_error` and an exception string renders that string in the corrected version and throws in the as-written one |
| Formatters.BookingsListRenders | frontend/src/store/toolResultFormatters.ts:97-125 | A listing produced by the back end always renders |
| Formatters.CreatedRenders | frontend/src/store/toolResultFormatters.ts:92-95 | The booking the provider returns on creation always renders |
| Formatters.NotFoundRenders | frontend/src/store/toolResultFormatters.ts:136-155 | A not-found outcome with the back end's summaries always renders |
| Formatters.NoMatchRenders | frontend/src/store/toolResultFormatters.ts:166-169 | A no-match outcome with the back end's event list always renders |
| Formatters.AvailabilityRenders | frontend/src/store/toolResultFormatters.ts:171-195 | The alternative slots the back end sends always render |
| Formatters.CancelledRenders | frontend/src/store/toolResultFormatters.ts:131-134 | A successful cancellation always renders |
| Formatters.CancelledShown | frontend/src/store/toolResultFormatters.ts:131-134 | Any data holding a cancelled booking object renders, directly and through the switch |
| Formatters.OtherCodesRender | frontend/src/store/toolResultFormatters.ts:63-88 | Every code other than `booking_cancellation_failed` has its case complete on the data that code carries |
| Formatters.CancellationFailedCase | frontend/src/store/toolResultFormatters.ts:74-75 | The `booking_cancellation_failed` case calls the formatter as written in the switch as written, and the corrected formatter in the corrected switch |
| Formatters.FailedCancellationOutcomeRenders | frontend/src/store/toolResultFormatters.ts:157-160 | For either failure payload, the switch as written renders exactly the provider's refusal and throws on a raised request; the corrected switch renders both |
| Formatters.CorrectedElsewhereAgrees | frontend/src/store/toolResultFormatters.ts:63-88 | Outside the `booking_cancellation_failed` case the corrected switch does exactly what the switch as written does |
| Formatters.AsWrittenRouteRenders | frontend/src/store/toolResultFormatters.ts:63-88 | On an outcome whose data has the shape its code promises, the switch as written completes exactly unless the outcome is a failed cancellation whose request raised |
| Formatters.CorrectedRouteRenders | frontend/src/store/toolResultFormatters.ts:63-88 | With the corrected cancellation-failed formatter, the switch completes on every outcome whose data has the shape its code promises |
| Formatters.ConsistentOutcomeRendersUnlessRaised | frontend/src/store/toolResultFormatters.ts:50-89 | As written, every envelope the back end sends with data of the promised shape renders as text exactly unless it reports a cancellation whose request raised, which throws a `TypeError` |
| Formatters.CorrectedRendersEveryConsistentOutcome | frontend/src/store/toolResultFormatters.ts:50-89 | With the corrected cancellation-failed formatter, every envelope with data of the promised shape renders as text, never as a thrown `TypeError` |
| UserForm.EmailCheckMatchesPattern | frontend/src/components/UserInfoForm.tsx:34 | A single-pass check (split at the first `@`, clean parts, an inner `.` in the domain) accepts exactly the strings the email pattern matches |
| UserForm.CheckedEmailIsShaped | frontend/src/components/UserInfoForm.tsx:34 | Whatever the single-pass check accepts, the pattern matches |
| UserForm.ShapedEmailIsChecked | frontend/src/components/UserInfoForm.tsx:34 | Whatever the pattern matches, the single-pass check accepts |
| UserForm.Validate | frontend/src/components/UserInfoForm.tsx:27-36 | A field has an error exactly when it is blank after trimming, or for the email also when it is non-empty and fails the pattern; each error carries its fixed message, "valid email" overriding "required" |
| UserForm.BlankEmailReportedInvalid | frontend/src/components/UserInfoForm.tsx:30-36 | A whitespace-only email is reported as invalid, not as missing |
| UserForm.HandleSubmit | frontend/src/components/UserInfoForm.tsx:24-43 | The error state is the validation's messages; the details are submitted, unchanged, exactly when name and timezone are not blank and the email matches the pattern |
| UserForm.HandleChange | frontend/src/components/UserInfoForm.tsx:45-51 | Only the named field changes; its shown error is cleared, and no other field's error changes |
| UserForm.RetypingClearsFlaggedFields | frontend/src/components/UserInfoForm.tsx:45-51 | After a series of edits, no edited field shows an error and every untouched field's error is as before |
| UserForm.NoErrorReappears | frontend/src/components/UserInfoForm.tsx:45-51 | Editing never makes an error appear on a field that showed none |

## Left out

- HTTP, `time.sleep`, logging and `print`: requests become reply parameters and a request trace; waits are returned as milliseconds; log lines and console output are dropped.
- `get_request`/`post_request`, the constructor, `is_api_validity`, `create_an_event_type`, `get_an_event_type`, `get_my_profile` and the `*_fc` function-calling schemas are not part of this model. The core reaches the provider only through the reply parameters.
- `backend/main.py` (the Flask handler, the language-model loop and the tool dispatch) is not part of this model beyond the JSON it sends, which `wire.dfy` encodes: `{tool, args, result}` for a known tool and `{tool, args, error}` for an unknown one.
- Wire.DaysJson: `jsonify` sorts the keys of every object it sends. Only the slots object's key order reaches a formatter (through `Object.entries`), so only that object is sorted here. The other objects are read by key, and `JSON.stringify`'s rendering of them is an opaque parameter.
- Resolver.Score: the scores are exact `real` quotients, while Python divides and compares `float`s. The strict comparisons agree only while titles, slugs and names stay shorter than about 2^17 characters; beyond that, two distinct scores can round to the same double and the model may keep a different candidate.
- Timestamps.Parse: accepts only `YYYY-MM-DDTHH:MM:SS[.fraction][Z|±HH:MM]`, a subset of what `dateutil.parser.parse` accepts. Texts it rejects that dateutil would read raise `ValueError` in the model.
- Timestamps.ConvertToUtcFormat: the `ValueError` message omits the `: <cause>` suffix, because the cause text comes from dateutil or pytz.
- Timestamps.ZoneRules: the named-zone database (pytz `localize`, including its choice for ambiguous or missing local times at DST changes) is a parameter.
- Text.Lower: folds ASCII letters only. Python's `str.lower()` also folds other scripts.
- Default argument values (`timezone`, `reason`, `user_email`, `user_name`, the helpers' `attendee_email`) are not modelled; every argument is explicit.
- A value of the wrong type in a reply (a `title` that is `null`, a slot without `start`, a non-list `data`) would make the Python code raise `AttributeError`/`KeyError`/`TypeError`. The replies are typed here, so only absent keys are modelled.
- Exceptions from the catalog, slots, booking and listing requests other than those `get_all_event_types` catches are not modelled. Only the cancellation request's exception is: the code catches it.
- Orchestrator.CreateACalBooking: the final `UNKNOWN` branch (cal.py:522-527), and likewise cal.py:705-710 in `cancel_user_booking`, cannot be reached: the lookups return only "success" or "error". The typed status makes that structural.
- The race between the availability check and the create request (another booking may take the slot in between) lies outside a sequential model.
- Json: JavaScript numbers are integers here, and objects are field lists whose first field with a key wins. `JSON.parse` keeps the last duplicate key, but the back end never sends duplicates.
- Formatters.Env: `toLocaleString`, `toLocaleDateString`, `toLocaleTimeString` and `JSON.stringify` are opaque functions, because their output depends on the browser's locale.
- The React rendering of the chat, the form markup and the time-zone dropdown are not modelled. The form's initial time zone comes from `Intl` and is an input.

## Findings

| source | as written | input that shows it | evidently intended | confidence | as-written member | corrected member |
|---|---|---|---|---|---|---|
| frontend/src/store/toolResultFormatters.ts:157-160 | `formatBookingCancellationFailed` always reads `cancellation_error.message`. When the cancellation request raises, `cancel_user_booking` (backend/cal.py:693-703) sends `{found_booking, exception}` with no `cancellation_error`. | A `booking_cancellation_failed` envelope with data `{found_booking: {uid: "abc", id: 7, title: "Intro call", ...}, exception: "boom"}` | Show the exception text when there is no `cancellation_error` | not executed | Formatters.AsWrittenFailsOnRaisedCancellation | Formatters.CorrectedCancellationFailedRenders |
