/** `frontend/src/store/toolResultFormatters.ts`: turning one tool result
    into the Markdown the chat shows. Each formatter is a function of the
    parsed JSON that either yields the text or throws a `TypeError`, which is
    what reading a property of `null` or `undefined` does. */
module Formatters {
  import opened Common
  import opened Text
  import opened JsValues
  import opened Outcomes
  import opened Wire

  /** The host functions the formatters call whose output depends on the
      browser's locale or on a serialiser outside this model. */
  datatype Env = Env(
    localeDateTime: Json -> string,  // new Date(v).toLocaleString()
    longDate: string -> string,      // new Date(s).toLocaleDateString([], {weekday, year, month: 'long', day})
    shortTime: Json -> string,       // new Date(v).toLocaleTimeString([], {hour, minute: '2-digit'})
    stringify: Json -> string)       // JSON.stringify(v, null, 2)

  const Cross: string := "\U{274C}"
  const Tick: string := "\U{2705}"
  const Calendar: string := "\U{1F4C5}"
  const Hourglass: string := "\U{23F3}"
  const Question: string := "\U{2753}"
  const People: string := "\U{1F465}"
  const IdBadge: string := "\U{1F194}"
  const Clock: string := "\U{1F550}"
  const AlarmClock: string := "\U{23F0}"
  const Bulb: string := "\U{1F4A1}"
  const BookingUrl: string := "https://app.cal.com/booking/"
  const Fence: string := "```"

  /** `new Date(v || '').toLocaleString()`. */
  function DateOrEmpty(env: Env, v: Json): string {
    env.localeDateTime(Or(v, JStr("")))
  }

  // ---------------------------------------------------------------------
  // Individual formatters
  // ---------------------------------------------------------------------

  function FormatAllMatched(env: Env, data: Json): Js<string> {
    if Nullish(data) then TypeError
    else
      Done(Tick + " I've created the event for you!\n\n**Event Details:**\n- **Title:** " + ToStr(Get(data, "title"))
           + "\n- **Start:** " + DateOrEmpty(env, Get(data, "start"))
           + "\n- **End:** " + DateOrEmpty(env, Get(data, "end"))
           + "\n- **Booking ID:** " + ToStr(Get(data, "id"))
           + "\n\n[View Booking Details](" + BookingUrl + ToStr(Get(data, "uid")) + ")")
  }

  /** `xs.map(x => x[key])`: throws if some element is `null` or `undefined`. */
  function MapProp(items: seq<Json>, key: string): (r: Js<seq<Json>>)
    ensures r.Done? <==> forall i :: 0 <= i < |items| ==> !Nullish(items[i])
    ensures r.Done? ==> |r.value| == |items| && forall i :: 0 <= i < |items| ==> r.value[i] == Get(items[i], key)
    decreases |items|
  {
    if |items| == 0 then Done([])
    else if Nullish(items[0]) then TypeError
    else
      match MapProp(items[1..], key)
      case TypeError => TypeError
      case Done(rest) => Done([Get(items[0], key)] + rest)
  }

  /** `booking.attendees?.map(a => a.name).join(', ') || 'No attendees'`. */
  function AttendeesText(booking: Json): (r: Js<string>)
    requires !Nullish(booking)
    ensures r.Done? <==> ListableBooking(booking)
  {
    var attendees := Get(booking, "attendees");
    if Nullish(attendees) then Done("No attendees")
    else if !attendees.JArr? then TypeError  // only arrays have `map`
    else
      match MapProp(attendees.items, "name")
      case TypeError => TypeError
      case Done(names) =>
        var text := JoinJs(names, ", ");
        Done(if text == "" then "No attendees" else text)
  }

  /** The status marker: accepted, pending, anything else. */
  function StatusMark(status: Json): string {
    if status == JStr("accepted") then Tick
    else if status == JStr("pending") then Hourglass
    else Question
  }

  /** A booking whose fields the list formatter can read: an object whose
      attendees, if any, are an array of non-null entries. */
  predicate ListableBooking(b: Json) {
    && !Nullish(b)
    && var a := Get(b, "attendees");
       Nullish(a) || (a.JArr? && forall i :: 0 <= i < |a.items| ==> !Nullish(a.items[i]))
  }

  /** One booking's block in the bookings list. */
  function BookingBlock(env: Env, booking: Json): (r: Js<string>)
    ensures r.Done? <==> ListableBooking(booking)
  {
    if Nullish(booking) then TypeError
    else
      match AttendeesText(booking)
      case TypeError => TypeError
      case Done(attendees) =>
        var status := Get(booking, "status");
        var startTime := Get(booking, "startTime");
        var endTime := Get(booking, "endTime");
        Done("**" + ToStr(Get(booking, "title")) + "** \n"
             + "- " + StatusMark(status) + " Status: " + ToStr(status) + "\n"
             + "- " + People + " Attendees: " + attendees + "\n"
             + "- " + IdBadge + " Booking ID: `" + ToStr(Get(booking, "id")) + "`\n"
             + (if Truthy(startTime) then "- " + Clock + " Start: **" + env.localeDateTime(startTime) + "**\n" else "")
             + (if Truthy(endTime) then "- " + Clock + " End: **" + env.localeDateTime(endTime) + "**\n" else "")
             + "- [View Booking Details](" + BookingUrl + ToStr(Get(booking, "uid")) + ")\n\n")
  }

  /** The `forEach` over the bookings, appending each block. */
  function BookingBlocks(env: Env, items: seq<Json>): (r: Js<string>)
    ensures r.Done? <==> forall i :: 0 <= i < |items| ==> ListableBooking(items[i])
    decreases |items|
  {
    if |items| == 0 then Done("")
    else
      match BookingBlock(env, items[0])
      case TypeError => TypeError
      case Done(block) =>
        match BookingBlocks(env, items[1..])
        case TypeError => TypeError
        case Done(rest) => Done(block + rest)
  }

  /** `bookings && Array.isArray(bookings) && bookings.length > 0`. */
  predicate NonEmptyArray(v: Json) {
    v.JArr? && |v.items| > 0
  }

  const BookingsHeader: string := Calendar + " **Your Cal.com Bookings:**\n\n"

  function FormatBookingsList(env: Env, data: Json): Js<string> {
    if NonEmptyArray(data) then
      match BookingBlocks(env, data.items)
      case TypeError => TypeError
      case Done(blocks) => Done(BookingsHeader + blocks)
    else Done(BookingsHeader + "No bookings found.")
  }

  function FormatBookingsEmpty(message: Json): string {
    Calendar + " **No Bookings Found**\n\n" + ToStr(Or(message, JStr("You currently have no Cal.com bookings.")))
    + "\n\n" + Bulb + " *Tip: You can create a new booking by asking me to schedule an event for you!*"
  }

  function FormatBookingCancelled(env: Env, data: Json, message: Json): Js<string> {
    if Nullish(data) || Nullish(Get(data, "cancelled_booking")) then TypeError
    else
      var b := Get(data, "cancelled_booking");
      Done(Tick + " **Booking Cancelled Successfully!**\n\n**Cancelled Event Details:**\n- **Title:** " + ToStr(Get(b, "title"))
           + "\n- **Start:** " + DateOrEmpty(env, Get(b, "startTime"))
           + "\n- **End:** " + DateOrEmpty(env, Get(b, "endTime"))
           + "\n- **Booking ID:** " + ToStr(Get(b, "id"))
           + "\n\n" + ToStr(message))
  }

  /** The 1-based number that opens the entry at `index` (counting from 0). */
  function EntryNumber(index: nat): string {
    "**" + NatToString(index + 1) + ". "
  }

  /** One numbered entry of the not-found listing; `index` counts from 0. */
  function NotFoundBlock(env: Env, booking: Json, index: nat): (r: Js<string>)
    ensures r.Done? <==> !Nullish(booking)
    ensures r.Done? ==> |EntryNumber(index)| <= |r.value| && r.value[..|EntryNumber(index)|] == EntryNumber(index)
  {
    if Nullish(booking) then TypeError
    else
      var endTime := Get(booking, "endTime");
      var rest := ToStr(Get(booking, "title")) + "**\n"
                  + "- " + Clock + " Start: " + DateOrEmpty(env, Get(booking, "startTime")) + "\n"
                  + (if Truthy(endTime) then "- " + Clock + " End: " + env.localeDateTime(endTime) + "\n" else "")
                  + "- [View Booking](" + BookingUrl + ToStr(Get(booking, "uid")) + ")\n\n";
      Done(EntryNumber(index) + rest)
  }

  function NotFoundBlocks(env: Env, items: seq<Json>, index: nat): (r: Js<string>)
    ensures r.Done? <==> forall i :: 0 <= i < |items| ==> !Nullish(items[i])
    decreases |items|
  {
    if |items| == 0 then Done("")
    else
      match NotFoundBlock(env, items[0], index)
      case TypeError => TypeError
      case Done(block) =>
        match NotFoundBlocks(env, items[1..], index + 1)
        case TypeError => TypeError
        case Done(rest) => Done(block + rest)
  }

  function FormatBookingNotFound(env: Env, data: Json, message: Json): Js<string> {
    var head := Cross + " **" + ToStr(message) + "**\n\n";
    if NonEmptyArray(data) then
      match NotFoundBlocks(env, data.items, 0)
      case TypeError => TypeError
      case Done(blocks) => Done(head + "**Your existing bookings:**\n" + blocks)
    else Done(head + "No existing bookings found.")
  }

  /** The cancellation-failed text around the found booking and the error. */
  function CancellationFailedText(env: Env, found: Json, message: Json, errorText: string): string
    requires !Nullish(found)
  {
    Cross + " **Cancellation Failed**\n\n" + ToStr(message) + "\n\n**Found Booking:**\n- **Title:** " + ToStr(Get(found, "title"))
    + "\n- **Start:** " + DateOrEmpty(env, Get(found, "startTime"))
    + "\n- **End:** " + DateOrEmpty(env, Get(found, "endTime"))
    + "\n- **Booking ID:** " + ToStr(Get(found, "id"))
    + "\n\n**Error:** " + errorText
  }

  /** `formatBookingCancellationFailed` as written: it always reads
      `cancellation_error.message`. */
  function FormatBookingCancellationFailedAsWritten(env: Env, data: Json, message: Json): Js<string> {
    if Nullish(data) || Nullish(Get(data, "found_booking")) || Nullish(Get(data, "cancellation_error")) then TypeError
    else
      Done(CancellationFailedText(env, Get(data, "found_booking"), message,
                                  ToStr(Get(Get(data, "cancellation_error"), "message"))))
  }

  /** The evidently intended formatter: the provider's message when there is
      a `cancellation_error`, else the `exception` text the back end sends
      when the cancellation request raised. */
  function FormatBookingCancellationFailed(env: Env, data: Json, message: Json): Js<string> {
    if Nullish(data) || Nullish(Get(data, "found_booking")) then TypeError
    else
      var failure := Get(data, "cancellation_error");
      var errorText := if Nullish(failure) then ToStr(Get(data, "exception")) else ToStr(Get(failure, "message"));
      Done(CancellationFailedText(env, Get(data, "found_booking"), message, errorText))
  }

  function FormatApiError(message: Json): string {
    Cross + " **Error:** " + ToStr(message)
  }

  function EventLine(event: Json): string
    requires !Nullish(event)
  {
    "- **" + ToStr(Get(event, "title")) + "** (ID: " + ToStr(Get(event, "id")) + ", Slug: " + ToStr(Get(event, "slug")) + ")"
  }

  /** `events.map(e => ...)`: throws on a `null`/`undefined` event. */
  function EventLines(items: seq<Json>): (r: Js<seq<string>>)
    ensures r.Done? <==> forall i :: 0 <= i < |items| ==> !Nullish(items[i])
    ensures r.Done? ==> |r.value| == |items| && forall i :: 0 <= i < |items| ==> r.value[i] == EventLine(items[i])
    decreases |items|
  {
    if |items| == 0 then Done([])
    else if Nullish(items[0]) then TypeError
    else
      match EventLines(items[1..])
      case TypeError => TypeError
      case Done(rest) => Done([EventLine(items[0])] + rest)
  }

  function FormatNoMatch(data: Json, message: Json): Js<string> {
    if !data.JArr? then TypeError  // only arrays have `map`
    else
      match EventLines(data.items)
      case TypeError => TypeError
      case Done(lines) => Done(Cross + " " + ToStr(message) + "\n\n**Available Events:**\n" + Join(lines, "\n"))
  }

  /** `Object.entries(v)` for a value that is not `null`/`undefined`: an
      object's fields in order, an array's or a string's indexed elements,
      nothing for the other kinds of value. */
  function Entries(v: Json): seq<Field>
    requires !Nullish(v)
  {
    match v
    case JObj(fields) => fields
    case JArr(items) => seq(|items|, i requires 0 <= i < |items| => Field(NatToString(i), items[i]))
    case JStr(s) => seq(|s|, i requires 0 <= i < |s| => Field(NatToString(i), JStr([s[i]])))
    case _ => []
  }

  /** `slots.forEach(...)`: one line per slot; throws on a `null`/`undefined` slot. */
  function SlotLines(env: Env, slots: seq<Json>): (r: Js<string>)
    ensures r.Done? <==> forall i :: 0 <= i < |slots| ==> !Nullish(slots[i])
    decreases |slots|
  {
    if |slots| == 0 then Done("")
    else if Nullish(slots[0]) then TypeError
    else
      match SlotLines(env, slots[1..])
      case TypeError => TypeError
      case Done(rest) => Done("- " + env.shortTime(Get(slots[0], "start")) + "\n" + rest)
  }

  /** A day's slots the availability formatter can walk: an array with no
      `null`/`undefined` slot. */
  predicate WalkableSlots(v: Json) {
    v.JArr? && forall i :: 0 <= i < |v.items| ==> !Nullish(v.items[i])
  }

  /** `Object.entries(data).forEach(...)`: one section per date, in order. */
  function DaySections(env: Env, entries: seq<Field>): (r: Js<string>)
    ensures r.Done? <==> forall i :: 0 <= i < |entries| ==> WalkableSlots(entries[i].value)
    decreases |entries|
  {
    if |entries| == 0 then Done("")
    else
      var slots := entries[0].value;
      if !slots.JArr? then TypeError  // only arrays have `forEach`
      else
        match SlotLines(env, slots.items)
        case TypeError => TypeError
        case Done(lines) =>
          match DaySections(env, entries[1..])
          case TypeError => TypeError
          case Done(rest) =>
            Done("\n**" + env.longDate(entries[0].key + "T00:00:00.000Z") + ":**\n" + lines + rest)
  }

  function FormatAvailabilityNoMatch(env: Env, data: Json, message: Json): Js<string> {
    if Nullish(data) then TypeError
    else
      match DaySections(env, Entries(data))
      case TypeError => TypeError
      case Done(sections) =>
        Done(AlarmClock + " " + ToStr(message) + "\n\n**Alternative Time Slots:**\n" + sections)
  }

  function FormatDefault(env: Env, code: Json, message: Json, data: Json): string {
    "**Tool Result:**\n- **Code:** " + ToStr(code) + "\n- **Message:** " + ToStr(message)
    + "\n\n**Data:**\n" + Fence + "json\n" + env.stringify(data) + "\n" + Fence
  }

  // ---------------------------------------------------------------------
  // Dispatch
  // ---------------------------------------------------------------------

  /** The formatter a `case` of the `switch (code)` statement calls. */
  datatype Route =
    | ToAllMatched | ToBookingsList | ToBookingsEmpty | ToCancelled | ToNotFound
    | ToCancellationFailed | ToApiError | ToNoMatch | ToAvailabilityNoMatch | ToDefault

  /** The `case` labels, tried in the statement's order; anything else falls
      to `default`. */
  function RouteOf(code: Json): Route {
    if code == JStr("all_matched") then ToAllMatched
    else if code == JStr("list_all_cal_bookings_success") then ToBookingsList
    else if code == JStr("list_all_cal_bookings_empty") then ToBookingsEmpty
    else if code == JStr("booking_found_and_cancelled") then ToCancelled
    else if code == JStr("booking_not_found") then ToNotFound
    else if code == JStr("booking_cancellation_failed") then ToCancellationFailed
    else if code == JStr("calcom_api_request_failed") then ToApiError
    else if code == JStr("unexpected_response_format") then ToDefault
    else if code == JStr("slots_request_failed") then ToApiError
    else if code == JStr("no_match") then ToNoMatch
    else if code == JStr("availability_no_exact_match") then ToAvailabilityNoMatch
    else ToDefault
  }

  /** What each `case` of the switch returns. */
  function Render(env: Env, route: Route, code: Json, message: Json, data: Json): Js<string> {
    match route
    case ToAllMatched => FormatAllMatched(env, data)
    case ToBookingsList => FormatBookingsList(env, data)
    case ToBookingsEmpty => Done(FormatBookingsEmpty(message))
    case ToCancelled => FormatBookingCancelled(env, data, message)
    case ToNotFound => FormatBookingNotFound(env, data, message)
    case ToCancellationFailed => FormatBookingCancellationFailedAsWritten(env, data, message)
    case ToApiError => Done(FormatApiError(message))
    case ToNoMatch => FormatNoMatch(data, message)
    case ToAvailabilityNoMatch => FormatAvailabilityNoMatch(env, data, message)
    case ToDefault => Done(FormatDefault(env, code, message, data))
  }

  /** The switch with the corrected cancellation-failed formatter in its
      `booking_cancellation_failed` case; every other case is unchanged. */
  function RenderCorrected(env: Env, route: Route, code: Json, message: Json, data: Json): Js<string> {
    if route == ToCancellationFailed then FormatBookingCancellationFailed(env, data, message)
    else Render(env, route, code, message, data)
  }

  function Dispatch(env: Env, code: Json, message: Json, data: Json): Js<string> {
    Render(env, RouteOf(code), code, message, data)
  }

  /** What destructuring a tool result yields before the switch. */
  datatype Reading =
    | Unreadable                                  // destructuring `null`/`undefined` throws
    | Failed(error: Json)                         // a truthy `error`
    | Raw                                         // no `result.result`: shown as JSON
    | Coded(code: Json, message: Json, data: Json)

  /** The checks `formatToolResultAsMarkdown` makes before its switch: an
      `error` wins; a result without an inner `result` is shown raw. */
  function Envelope(toolResult: Json): Reading {
    if Nullish(toolResult) then Unreadable
    else
      var result := Get(toolResult, "result");
      var error := Get(toolResult, "error");
      if Truthy(error) then Failed(error)
      else if !Truthy(result) || !Truthy(Get(result, "result")) then Raw
      else
        var inner := Get(result, "result");
        Coded(Get(inner, "code"), Get(inner, "message"), Get(inner, "data"))
  }

  /** `formatToolResultAsMarkdown`. */
  function FormatToolResultAsMarkdown(env: Env, toolResult: Json): Js<string> {
    match Envelope(toolResult)
    case Unreadable => TypeError
    case Failed(error) => Done(Cross + " **Error:** " + ToStr(error))
    case Raw => Done("**Debug:** " + Fence + "json\n" + env.stringify(toolResult) + "\n" + Fence)
    case Coded(code, message, data) => Dispatch(env, code, message, data)
  }

  /** `formatToolResultAsMarkdown` with the corrected switch. */
  function FormatToolResultAsMarkdownCorrected(env: Env, toolResult: Json): Js<string> {
    match Envelope(toolResult)
    case Coded(code, message, data) => RenderCorrected(env, RouteOf(code), code, message, data)
    case _ => FormatToolResultAsMarkdown(env, toolResult)
  }

  // ---------------------------------------------------------------------
  // Properties
  // ---------------------------------------------------------------------

  /** Reference routing by outcome code: the formatter each code of the
      back end's taxonomy is meant to reach. Both request failures share the
      plain error line; the codes without a formatter of their own are shown
      raw. */
  function CaseFor(code: Code): Route {
    match code
    case AllMatched => ToAllMatched
    case ListAllCalBookingsSuccess => ToBookingsList
    case ListAllCalBookingsEmpty => ToBookingsEmpty
    case BookingFoundAndCancelled => ToCancelled
    case BookingNotFound => ToNotFound
    case BookingCancellationFailed => ToCancellationFailed
    case CalcomApiRequestFailed | SlotsRequestFailed => ToApiError
    case NoMatch => ToNoMatch
    case AvailabilityNoExactMatch => ToAvailabilityNoMatch
    case UnexpectedResponseFormat | FoundMatch | Unknown => ToDefault
  }

  /** The front end's string switch agrees with the back end's code enum:
      every tool result carrying an outcome is rendered by the formatter for
      its code, with the outcome's message and data. */
  lemma DispatchFollowsCode(env: Env, tool: string, args: Json, o: Outcome)
    ensures FormatToolResultAsMarkdown(env, ToolResultJson(tool, args, o))
            == Render(env, CaseFor(o.code), JStr(o.code.Wire()), JStr(o.message), DataJson(o.data))
    ensures FormatToolResultAsMarkdownCorrected(env, ToolResultJson(tool, args, o))
            == RenderCorrected(env, CaseFor(o.code), JStr(o.code.Wire()), JStr(o.message), DataJson(o.data))
  {
    CodedDispatch(env, tool, args, JStr(o.status.Wire()), o.code, JStr(o.message), DataJson(o.data));
  }

  /** A coded element is formatted by the route of its code, whatever its
      status, message and data. */
  lemma CodedDispatch(env: Env, tool: string, args: Json, status: Json, code: Code, message: Json, data: Json)
    ensures var inner := JObj([Field("code", JStr(code.Wire())), Field("message", message), Field("data", data)]);
            var t := JObj([Field("tool", JStr(tool)), Field("args", args),
                           Field("result", JObj([Field("status", status), Field("result", inner)]))]);
            && FormatToolResultAsMarkdown(env, t) == Render(env, CaseFor(code), JStr(code.Wire()), message, data)
            && FormatToolResultAsMarkdownCorrected(env, t) == RenderCorrected(env, CaseFor(code), JStr(code.Wire()), message, data)
  {
    EnvelopeReads(tool, args, status, JStr(code.Wire()), message, data);
    RouteOfWire(code);
  }

  /** A `{tool, args, result: {status, result: {code, message, data}}}`
      element reaches the switch with its inner code, message and data. */
  lemma EnvelopeReads(tool: string, args: Json, status: Json, code: Json, message: Json, data: Json)
    ensures var inner := JObj([Field("code", code), Field("message", message), Field("data", data)]);
            var t := JObj([Field("tool", JStr(tool)), Field("args", args),
                           Field("result", JObj([Field("status", status), Field("result", inner)]))]);
            Envelope(t) == Coded(code, message, data)
  {
    var inner := JObj([Field("code", code), Field("message", message), Field("data", data)]);
    var result := JObj([Field("status", status), Field("result", inner)]);
    var t := JObj([Field("tool", JStr(tool)), Field("args", args), Field("result", result)]);
    LookupMissing(t.fields, "error");
    GetAt(t, 2, "result");
    GetAt(result, 1, "result");
    GetAt(inner, 0, "code");
    GetAt(inner, 1, "message");
    GetAt(inner, 2, "data");
  }

  /** Each code's wire string reaches the `case` label written for that
      code: the front end's labels and the back end's enum agree. */
  lemma RouteOfWire(code: Code)
    ensures RouteOf(JStr(code.Wire())) == CaseFor(code)
  {
    ListingLabels();
    CancellationLabels();
    FailureLabels();
    MatchLabels();
    UnlabelledCodes();
  }

  /** Where the switch sends each label, read off literal by literal. */
  lemma ListingLabels()
    ensures RouteOf(JStr("all_matched")) == ToAllMatched
    ensures RouteOf(JStr("list_all_cal_bookings_success")) == ToBookingsList
    ensures RouteOf(JStr("list_all_cal_bookings_empty")) == ToBookingsEmpty
    ensures RouteOf(JStr("booking_found_and_cancelled")) == ToCancelled
  {
  }

  lemma CancellationLabels()
    ensures RouteOf(JStr("booking_not_found")) == ToNotFound
    ensures RouteOf(JStr("booking_cancellation_failed")) == ToCancellationFailed
    ensures RouteOf(JStr("calcom_api_request_failed")) == ToApiError
  {
  }

  lemma FailureLabels()
    ensures RouteOf(JStr("unexpected_response_format")) == ToDefault
    ensures RouteOf(JStr("slots_request_failed")) == ToApiError
  {
  }

  lemma MatchLabels()
    ensures RouteOf(JStr("no_match")) == ToNoMatch
    ensures RouteOf(JStr("availability_no_exact_match")) == ToAvailabilityNoMatch
  {
    NoMatchLabel();
    AvailabilityLabel();
  }

  lemma NoMatchLabel()
    ensures RouteOf(JStr("no_match")) == ToNoMatch
  {
  }

  lemma AvailabilityLabel()
    ensures RouteOf(JStr("availability_no_exact_match")) == ToAvailabilityNoMatch
  {
  }

  /** The codes with no label of their own fall to `default`. */
  lemma UnlabelledCodes()
    ensures RouteOf(JStr("found_match")) == ToDefault
    ensures RouteOf(JStr("unknown")) == ToDefault
  {
  }

  /** An unknown tool's result is shown as an error line naming the tool. */
  lemma UnknownToolShowsError(env: Env, tool: string, args: Json)
    ensures FormatToolResultAsMarkdown(env, UnknownToolJson(tool, args))
            == Done(Cross + " **Error:** Unknown tool: " + tool)
  {
    var t := UnknownToolJson(tool, args);
    LookupMissing(t.fields, "result");
    GetAt(t, 2, "error");
    assert Cross + " **Error:** " + ("Unknown tool: " + tool) == Cross + " **Error:** Unknown tool: " + tool;
  }

  /** The attendee line falls back to "No attendees" exactly when there is no
      attendee list, it is empty, or its only attendee's name renders empty;
      otherwise it is the names joined with ", ". */
  lemma AttendeesFallback(booking: Json)
    requires ListableBooking(booking)
    ensures var a := Get(booking, "attendees");
            var silent := Nullish(a) || |a.items| == 0 || (|a.items| == 1 && ElemStr(Get(a.items[0], "name")) == "");
            && (silent ==> AttendeesText(booking) == Done("No attendees"))
            && (!silent ==>
                  AttendeesText(booking)
                  == Done(Join(seq(|a.items|, i requires 0 <= i < |a.items| => ElemStr(Get(a.items[i], "name"))), ", ")))
  {
    var a := Get(booking, "attendees");
    if !Nullish(a) {
      var names := MapProp(a.items, "name").value;
      var parts := seq(|names|, i requires 0 <= i < |names| => ElemStr(names[i]));
      assert parts == seq(|a.items|, i requires 0 <= i < |a.items| => ElemStr(Get(a.items[i], "name")));
      JoinEmpty(parts, ", ");
    }
  }

  /** One block per booking, in order: the list body is the concatenation of
      each booking's block. */
  lemma {:induction false} OneBlockPerBooking(env: Env, items: seq<Json>, blocks: seq<string>)
    requires |blocks| == |items|
    requires forall i :: 0 <= i < |items| ==> BookingBlock(env, items[i]) == Done(blocks[i])
    ensures BookingBlocks(env, items) == Done(Concat(blocks))
    decreases |items|
  {
    if |items| > 0 {
      forall i | 0 <= i < |items| - 1 ensures BookingBlock(env, items[1..][i]) == Done(blocks[1..][i]) {
        assert items[1..][i] == items[i + 1];
      }
      OneBlockPerBooking(env, items[1..], blocks[1..]);
    }
  }

  /** The not-found listing numbers its entries consecutively in order: the
      body is the concatenation of the blocks numbered `start + 1`,
      `start + 2`, ... */
  lemma {:induction false} NotFoundNumbering(env: Env, items: seq<Json>, start: nat, blocks: seq<string>)
    requires |blocks| == |items|
    requires forall i :: 0 <= i < |items| ==> NotFoundBlock(env, items[i], start + i) == Done(blocks[i])
    ensures NotFoundBlocks(env, items, start) == Done(Concat(blocks))
    ensures forall i :: 0 <= i < |blocks| ==>
              |EntryNumber(start + i)| <= |blocks[i]| && blocks[i][..|EntryNumber(start + i)|] == EntryNumber(start + i)
    decreases |items|
  {
    if |items| > 0 {
      forall i | 0 <= i < |items| - 1 ensures NotFoundBlock(env, items[1..][i], start + 1 + i) == Done(blocks[1..][i]) {
        assert items[1..][i] == items[i + 1];
      }
      NotFoundNumbering(env, items[1..], start + 1, blocks[1..]);
    }
  }

  /** A cancellation request that raised reaches the front end as
      `{found_booking, exception}`; the formatter as written then reads
      `message` of the missing `cancellation_error` and throws, and so does
      the whole tool-result formatter on that envelope. */
  lemma AsWrittenFailsOnRaisedCancellation(env: Env, tool: string, args: Json)
    ensures var o := Outcome(Error, BookingCancellationFailed, "Exception occurred while cancelling booking: boom",
                             CancelRaised(BookingRef(Some("abc"), Some(7), Some("Intro call"),
                                                     Some("2025-01-01T10:00:00.000Z"), Some("2025-01-01T10:30:00.000Z")),
                                          "boom"));
            && FormatBookingCancellationFailedAsWritten(env, DataJson(o.data), JStr(o.message)) == TypeError
            && FormatToolResultAsMarkdown(env, ToolResultJson(tool, args, o)) == TypeError
  {
    var found := BookingRef(Some("abc"), Some(7), Some("Intro call"),
                            Some("2025-01-01T10:00:00.000Z"), Some("2025-01-01T10:30:00.000Z"));
    var o := Outcome(Error, BookingCancellationFailed, "Exception occurred while cancelling booking: boom",
                     CancelRaised(found, "boom"));
    RaisedCancellationRenders(env, found, "boom", o.message);
    ConsistentOutcomeRendersUnlessRaised(env, tool, args, o);
  }

  /** The corrected formatter renders both shapes the back end sends for a
      failed cancellation: the error shown is the exception text, or the
      provider's message (`undefined` when it sent none). Where the
      as-written formatter renders at all, the two agree. */
  lemma CorrectedCancellationFailedRenders(env: Env, d: Data, message: string)
    requires d.CancelFailed? || d.CancelRaised?
    ensures var found := if d.CancelFailed? then d.foundBooking else d.raisedBooking;
            var errorText := if d.CancelRaised? then d.exception
                             else d.cancellationError.message.GetOr("undefined");
            FormatBookingCancellationFailed(env, DataJson(d), JStr(message))
            == Done(CancellationFailedText(env, BookingRefJson(found), JStr(message), errorText))
    ensures var asWritten := FormatBookingCancellationFailedAsWritten(env, DataJson(d), JStr(message));
            asWritten.Done? ==> asWritten == FormatBookingCancellationFailed(env, DataJson(d), JStr(message))
  {
    if d.CancelFailed? {
      RefusedCancellationRenders(env, d.foundBooking, d.cancellationError, message);
    } else {
      RaisedCancellationRenders(env, d.raisedBooking, d.exception, message);
    }
  }

  /** The provider refused the cancellation: both formatters show its message. */
  lemma RefusedCancellationRenders(env: Env, found: BookingRef, reply: CancelResponse, message: string)
    ensures var data := DataJson(CancelFailed(found, reply));
            var text := CancellationFailedText(env, BookingRefJson(found), JStr(message), reply.message.GetOr("undefined"));
            && FormatBookingCancellationFailed(env, data, JStr(message)) == Done(text)
            && FormatBookingCancellationFailedAsWritten(env, data, JStr(message)) == Done(text)
  {
    var failure := ResponseJson(reply, ProviderBookingJson);
    var data := JObj([Field("found_booking", BookingRefJson(found)), Field("cancellation_error", failure)]);
    assert DataJson(CancelFailed(found, reply)) == data;
    GetAt(data, 0, "found_booking");
    GetAt(data, 1, "cancellation_error");
    ResponseMessage(reply, ProviderBookingJson);
    assert ToStr(Get(failure, "message")) == reply.message.GetOr("undefined");
    ErrorObjectShown(env, data, BookingRefJson(found), failure, JStr(message));
  }

  /** With a `cancellation_error` object present, both formatters show its
      `message`. */
  lemma ErrorObjectShown(env: Env, data: Json, found: Json, failure: Json, message: Json)
    requires !Nullish(data) && !Nullish(found) && !Nullish(failure)
    requires Get(data, "found_booking") == found && Get(data, "cancellation_error") == failure
    ensures var text := CancellationFailedText(env, found, message, ToStr(Get(failure, "message")));
            && FormatBookingCancellationFailed(env, data, message) == Done(text)
            && FormatBookingCancellationFailedAsWritten(env, data, message) == Done(text)
  {
  }

  /** The cancellation request raised: the corrected formatter shows the
      exception text, the as-written one throws. */
  lemma RaisedCancellationRenders(env: Env, found: BookingRef, exception: string, message: string)
    ensures var data := DataJson(CancelRaised(found, exception));
            && FormatBookingCancellationFailed(env, data, JStr(message))
               == Done(CancellationFailedText(env, BookingRefJson(found), JStr(message), exception))
            && FormatBookingCancellationFailedAsWritten(env, data, JStr(message)) == TypeError
  {
    var data := JObj([Field("found_booking", BookingRefJson(found)), Field("exception", JStr(exception))]);
    assert DataJson(CancelRaised(found, exception)) == data;
    GetAt(data, 0, "found_booking");
    LookupMissing(data.fields, "cancellation_error");
    GetAt(data, 1, "exception");
    ExceptionShown(env, data, BookingRefJson(found), exception, JStr(message));
  }

  /** With no `cancellation_error`, the corrected formatter shows the
      `exception` text and the as-written one throws. */
  lemma ExceptionShown(env: Env, data: Json, found: Json, exception: string, message: Json)
    requires !Nullish(data) && !Nullish(found)
    requires Get(data, "found_booking") == found && Get(data, "cancellation_error") == JUndefined
    requires Get(data, "exception") == JStr(exception)
    ensures FormatBookingCancellationFailed(env, data, message)
            == Done(CancellationFailedText(env, found, message, exception))
    ensures FormatBookingCancellationFailedAsWritten(env, data, message) == TypeError
  {
  }

  /** A booking the provider created renders. */
  lemma CreatedRenders(env: Env, b: ProviderBooking)
    ensures FormatAllMatched(env, DataJson(Created(b))).Done?
  {
    assert DataJson(Created(b)).JObj?;
  }

  /** A listing of bookings the back end produced renders. */
  lemma BookingsListRenders(env: Env, infos: seq<BookingInfo>)
    ensures FormatBookingsList(env, DataJson(Bookings(infos))).Done?
  {
    var data := DataJson(Bookings(infos));
    forall i | 0 <= i < |infos| ensures ListableBooking(InfoJson(infos[i])) {
      GetAt(InfoJson(infos[i]), 6, "attendees");
    }
    assert forall i :: 0 <= i < |data.items| ==> ListableBooking(data.items[i]);
  }

  /** A not-found reply with the back end's booking summaries renders. */
  lemma NotFoundRenders(env: Env, summaries: seq<BookingSummary>, message: string)
    ensures FormatBookingNotFound(env, DataJson(Summaries(summaries)), JStr(message)).Done?
  {
  }

  /** A no-match reply with the back end's event list renders. */
  lemma NoMatchRenders(events: seq<EventRef>, message: string)
    ensures FormatNoMatch(DataJson(Events(events)), JStr(message)).Done?
  {
  }

  /** Alternative slots the back end sends render, one section per day. */
  lemma AvailabilityRenders(env: Env, days: seq<DaySlots>, message: string)
    ensures FormatAvailabilityNoMatch(env, DataJson(Slots(days)), JStr(message)).Done?
  {
    var data := DataJson(Slots(days));
    assert forall i :: 0 <= i < |data.fields| ==> WalkableSlots(data.fields[i].value);
  }

  /** A successful cancellation reply renders. */
  lemma CancelledRenders(env: Env, booking: BookingRef, reply: CancelResponse, message: string)
    ensures FormatBookingCancelled(env, DataJson(Cancelled(booking, reply)), JStr(message)).Done?
  {
    var data := DataJson(Cancelled(booking, reply));
    GetAt(data, 0, "cancelled_booking");
    CancelledShown(env, data, BookingRefJson(booking), JStr(message), JNull);
  }

  /** A cancellation whose data holds a booking object renders, through the
      switch as well as directly. */
  lemma CancelledShown(env: Env, data: Json, found: Json, message: Json, shown: Json)
    requires !Nullish(data) && !Nullish(found) && Get(data, "cancelled_booking") == found
    ensures FormatBookingCancelled(env, data, message).Done?
    ensures Render(env, ToCancelled, shown, message, data).Done?
  {
    RenderCancelled(env, shown, message, data);
  }

  lemma RenderCancelled(env: Env, shown: Json, message: Json, data: Json)
    ensures Render(env, ToCancelled, shown, message, data) == FormatBookingCancelled(env, data, message)
  {
  }

  /** Every code other than `booking_cancellation_failed` has its
      formatter complete on the data that code carries, whatever code text
      the default case prints. */
  lemma OtherCodesRender(env: Env, o: Outcome, shown: Json)
    requires Consistent(o) && !o.code.BookingCancellationFailed?
    ensures Render(env, CaseFor(o.code), shown, JStr(o.message), DataJson(o.data)).Done?
  {
    if o.code.AllMatched? || o.code.ListAllCalBookingsSuccess? || o.code.BookingFoundAndCancelled? || o.code.BookingNotFound? {
      BookingCodesRender(env, o, shown);
    } else if o.code.NoMatch? || o.code.AvailabilityNoExactMatch? {
      MatchCodesRender(env, o, shown);
    } else {
      assert CaseFor(o.code) in {ToBookingsEmpty, ToApiError, ToDefault};
    }
  }

  /** The codes that carry a created, listed, cancelled or missing booking. */
  lemma BookingCodesRender(env: Env, o: Outcome, shown: Json)
    requires Consistent(o)
    requires o.code.AllMatched? || o.code.ListAllCalBookingsSuccess? || o.code.BookingFoundAndCancelled? || o.code.BookingNotFound?
    ensures Render(env, CaseFor(o.code), shown, JStr(o.message), DataJson(o.data)).Done?
  {
    if o.code.AllMatched? || o.code.ListAllCalBookingsSuccess? {
      CreatedOrListedRender(env, o, shown);
    } else {
      CancelledOrMissingRender(env, o, shown);
    }
  }

  lemma CreatedOrListedRender(env: Env, o: Outcome, shown: Json)
    requires Consistent(o)
    requires o.code.AllMatched? || o.code.ListAllCalBookingsSuccess?
    ensures Render(env, CaseFor(o.code), shown, JStr(o.message), DataJson(o.data)).Done?
  {
    if o.code.AllMatched? {
      CreatedRenders(env, o.data.booking);
    } else {
      BookingsListRenders(env, o.data.infos);
    }
  }

  lemma CancelledOrMissingRender(env: Env, o: Outcome, shown: Json)
    requires Consistent(o)
    requires o.code.BookingFoundAndCancelled? || o.code.BookingNotFound?
    ensures Render(env, CaseFor(o.code), shown, JStr(o.message), DataJson(o.data)).Done?
  {
    if o.code.BookingFoundAndCancelled? {
      CancelledOutcomeRenders(env, o.data, o.message, shown);
    } else {
      NotFoundOutcomeRenders(env, o.data, o.message, shown);
    }
  }

  lemma CancelledOutcomeRenders(env: Env, d: Data, message: string, shown: Json)
    requires d.Cancelled?
    ensures Render(env, ToCancelled, shown, JStr(message), DataJson(d)).Done?
  {
    var data := JObj([Field("cancelled_booking", BookingRefJson(d.cancelledBooking)),
                      Field("cancellation_response", ResponseJson(d.cancellationResponse, ProviderBookingJson))]);
    assert DataJson(d) == data;
    GetAt(data, 0, "cancelled_booking");
    CancelledShown(env, data, BookingRefJson(d.cancelledBooking), JStr(message), shown);
  }

  lemma NotFoundOutcomeRenders(env: Env, d: Data, message: string, shown: Json)
    requires d.Summaries?
    ensures Render(env, ToNotFound, shown, JStr(message), DataJson(d)).Done?
  {
    NotFoundRenders(env, d.summaries, message);
  }

  /** The codes that carry the nearest matches. */
  lemma MatchCodesRender(env: Env, o: Outcome, shown: Json)
    requires Consistent(o)
    requires o.code.NoMatch? || o.code.AvailabilityNoExactMatch?
    ensures Render(env, CaseFor(o.code), shown, JStr(o.message), DataJson(o.data)).Done?
  {
    if o.code.NoMatch? {
      NoMatchRenders(o.data.events, o.message);
    } else {
      AvailabilityRenders(env, o.data.days, o.message);
    }
  }

  /** The `booking_cancellation_failed` case: the switch as written renders
      the provider's refusal and throws on a raised request; the corrected
      switch renders both. */
  lemma FailedCancellationOutcomeRenders(env: Env, d: Data, message: string, shown: Json)
    requires d.CancelFailed? || d.CancelRaised?
    ensures Render(env, ToCancellationFailed, shown, JStr(message), DataJson(d)).Done? <==> d.CancelFailed?
    ensures RenderCorrected(env, ToCancellationFailed, shown, JStr(message), DataJson(d)).Done?
  {
    CancellationFailedCase(env, shown, JStr(message), DataJson(d));
    CorrectedCancellationFailedRenders(env, d, message);
    if d.CancelRaised? {
      RaisedCancellationRenders(env, d.raisedBooking, d.exception, message);
    } else {
      RefusedCancellationRenders(env, d.foundBooking, d.cancellationError, message);
    }
  }

  /** The `booking_cancellation_failed` case calls the as-written formatter
      in the switch as written, and the corrected one in the corrected switch. */
  lemma CancellationFailedCase(env: Env, shown: Json, message: Json, data: Json)
    ensures Render(env, ToCancellationFailed, shown, message, data)
            == FormatBookingCancellationFailedAsWritten(env, data, message)
    ensures RenderCorrected(env, ToCancellationFailed, shown, message, data)
            == FormatBookingCancellationFailed(env, data, message)
  {
  }

  /** The switch as written completes on every consistent outcome except a
      failed cancellation whose request raised. */
  lemma AsWrittenRouteRenders(env: Env, o: Outcome, shown: Json)
    requires Consistent(o)
    ensures Render(env, CaseFor(o.code), shown, JStr(o.message), DataJson(o.data)).Done?
            <==> !(o.code.BookingCancellationFailed? && o.data.CancelRaised?)
  {
    if o.code.BookingCancellationFailed? {
      FailedCancellationOutcomeRenders(env, o.data, o.message, shown);
    } else {
      OtherCodesRender(env, o, shown);
    }
  }

  /** The corrected switch completes on every consistent outcome. */
  lemma CorrectedRouteRenders(env: Env, o: Outcome, shown: Json)
    requires Consistent(o)
    ensures RenderCorrected(env, CaseFor(o.code), shown, JStr(o.message), DataJson(o.data)).Done?
  {
    if o.code.BookingCancellationFailed? {
      FailedCancellationOutcomeRenders(env, o.data, o.message, shown);
    } else {
      OtherCodesRender(env, o, shown);
      CorrectedElsewhereAgrees(env, CaseFor(o.code), shown, JStr(o.message), DataJson(o.data));
    }
  }

  /** Outside the `booking_cancellation_failed` case the two switches agree. */
  lemma CorrectedElsewhereAgrees(env: Env, route: Route, code: Json, message: Json, data: Json)
    requires route != ToCancellationFailed
    ensures RenderCorrected(env, route, code, message, data) == Render(env, route, code, message, data)
  {
  }

  /** What the back end sends, as the front end is written: every outcome
      whose data has the shape its code promises shows as text, except a
      failed cancellation whose request raised, which throws a `TypeError`. */
  lemma ConsistentOutcomeRendersUnlessRaised(env: Env, tool: string, args: Json, o: Outcome)
    requires Consistent(o)
    ensures FormatToolResultAsMarkdown(env, ToolResultJson(tool, args, o)).Done?
            <==> !(o.code.BookingCancellationFailed? && o.data.CancelRaised?)
  {
    DispatchFollowsCode(env, tool, args, o);
    AsWrittenRouteRenders(env, o, JStr(o.code.Wire()));
  }

  /** With the corrected formatter, every outcome whose data has the shape
      its code promises shows as text, never as a thrown `TypeError`. */
  lemma CorrectedRendersEveryConsistentOutcome(env: Env, tool: string, args: Json, o: Outcome)
    requires Consistent(o)
    ensures FormatToolResultAsMarkdownCorrected(env, ToolResultJson(tool, args, o)).Done?
  {
    DispatchFollowsCode(env, tool, args, o);
    CorrectedRouteRenders(env, o, JStr(o.code.Wire()));
  }
}
