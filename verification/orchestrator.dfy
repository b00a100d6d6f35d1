/** The three user-facing operations of `backend/cal.py`: `create_a_cal_booking`,
    `list_all_cal_bookings` and `cancel_user_booking`. Each takes the
    provider's replies as parameters and returns a `Run`: its outcome or
    exception, and the provider calls it issued. */
module Orchestrator {
  import opened Common
  import opened Outcomes
  import opened Text
  import opened Timestamps
  import opened ProviderClient
  import opened Resolver

  // ---------------------------------------------------------------------
  // create_a_cal_booking
  // ---------------------------------------------------------------------

  /** The attendee time zone sent with a new booking: `create_a_booking`'s
      default, because `create_a_cal_booking` does not pass the user's zone on. */
  const AttendeeTimeZone: string := "America/Los_Angeles"

  /** The provider's replies to the requests `create_a_cal_booking` may issue:
      the catalog attempts, the slots request and the booking request. */
  datatype CreateReplies = CreateReplies(
    catalog: seq<Attempt<CatalogResponse>>,
    slots: SlotsResponse,
    created: CreateResponse)

  /** `available_slots["data"].get(day, [])`: the slots under the key `day`,
      or none when the key is absent. */
  function SlotsOn(days: seq<DaySlots>, day: string): (r: seq<Slot>)
    ensures (forall i :: 0 <= i < |days| ==> days[i].date != day) ==> r == []
    ensures r != [] ==> exists i :: 0 <= i < |days| && days[i].date == day && days[i].slots == r
    decreases |days|
  {
    if |days| == 0 then []
    else if days[0].date == day then days[0].slots
    else SlotsOn(days[1..], day)
  }

  /** Some listed slot starts exactly at `instant` (string equality). */
  predicate SlotListed(slots: seq<Slot>, instant: string) {
    exists i :: 0 <= i < |slots| && slots[i].start == instant
  }

  /** The slots reply lists `instant` under `day`, so a booking is made. */
  predicate Bookable(slots: SlotsResponse, day: string, instant: string) {
    && slots.error.None?
    && slots.status == Some("success")
    && slots.data.Some?
    && SlotListed(SlotsOn(slots.data.value, day), instant)
  }

  /** The tail of `create_a_cal_booking` once the event id and the day are
      known: interpret the slots reply and, when the requested instant is
      listed, create the booking. `calls` holds only the booking request. */
  function BookIfAvailable(eventName: string, startUtc: string, eventTypeId: int, day: string,
                           reason: string, userEmail: string, userName: string,
                           slots: SlotsResponse, created: CreateResponse): (r: Run)
    ensures r.delays == [] && |r.calls| <= 1
    ensures r.calls != [] <==> Bookable(slots, day, startUtc)
    ensures r.calls != [] ==>
              r.calls[0] == CreateBooking(startUtc, eventTypeId, userName, userEmail, AttendeeTimeZone, reason)
    ensures slots.error.Some? ==>
              r.result == Ok(Outcome(Error, SlotsRequestFailed, "Failed to retrieve available time slots",
                                     ErrorText(slots.error.value)))
    ensures r.result.Ok? ==> r.result.value.code in {SlotsRequestFailed, AllMatched, AvailabilityNoExactMatch}
    ensures r.result.Ok? ==> (r.result.value.status == Success <==> r.result.value.code == AllMatched)
    ensures (r.result.Ok? && r.result.value.code == AllMatched) <==> (r.calls != [] && created.data.Some?)
    ensures r.result.Ok? ==> Consistent(r.result.value)
  {
    if slots.error.Some? then
      Run(Ok(Outcome(Error, SlotsRequestFailed, "Failed to retrieve available time slots", ErrorText(slots.error.value))), [], [])
    else
      match slots.status
      case None => Run(Raise(KeyError("status")), [], [])
      case Some(st) =>
        if st == "success" && slots.data.None? then Run(Raise(KeyError("data")), [], [])
        else if st == "success" && SlotListed(SlotsOn(slots.data.value, day), startUtc) then
          var call := CreateBooking(startUtc, eventTypeId, userName, userEmail, AttendeeTimeZone, reason);
          match created.data
          // the booking reply is not checked: a failed request has no `data`
          case None => Run(Raise(KeyError("data")), [call], [])
          case Some(b) =>
            Run(Ok(Outcome(Success, AllMatched, "Booking created for '" + eventName + "' at " + startUtc + ".", Created(b))),
                [call], [])
        else
          match slots.data
          case None => Run(Raise(KeyError("data")), [], [])
          case Some(d) =>
            Run(Ok(Outcome(Error, AvailabilityNoExactMatch,
                           "No exact match found for '" + eventName + "' at " + startUtc + ".", Slots(d))),
                [], [])
  }

  /** A normalised start whose UTC day window runs from midnight to the last
      second of its own date, and whose window start splits back to that
      date, as every result of the conversion does. */
  predicate HasDayWindow(u: string) {
    && |u| >= 10
    && GetDayRangeUtc(u) == Ok(DayWindow(u[..10] + "T00:00:00Z", u[..10] + "T23:59:59Z"))
    && BeforeFirst(u[..10] + "T00:00:00Z", 'T') == u[..10]
  }

  lemma NormalisedHasDayWindow(s: string, userTimezone: Option<string>, zones: ZoneRules)
    ensures ConvertToUtcFormat(s, userTimezone, zones).Ok? ==> HasDayWindow(ConvertToUtcFormat(s, userTimezone, zones).value)
  {
    if ConvertToUtcFormat(s, userTimezone, zones).Ok? {
      DayRangeOfNormalised(s, userTimezone, zones);
    }
  }

  /** `create_a_cal_booking` from the event lookup's run and the result of
      normalising the requested start: the lookup's exception comes first,
      then the conversion's, then the lookup's error outcome. */
  function CreateFromStart(eventName: string, lookup: Run, conv: Exec<string>, reason: string,
                           userEmail: string, userName: string, replies: CreateReplies): (r: Run)
    requires conv.Ok? ==> HasDayWindow(conv.value)
    requires lookup.result.Ok? && lookup.result.value.status == Success ==> lookup.result.value.data.Event?
    requires lookup.result.Ok? ==> Consistent(lookup.result.value)
    ensures r.delays == lookup.delays
    ensures r.result.Ok? ==> Consistent(r.result.value)
    ensures lookup.calls <= r.calls
    ensures lookup.result.Raise? ==> r == lookup
    ensures lookup.result.Ok? && conv.Raise? ==> r == Run(Raise(conv.exc), lookup.calls, lookup.delays)
    ensures lookup.result.Ok? && conv.Ok? && lookup.result.value.status == Error ==> r == lookup
  {
    match lookup.result
    case Raise(_) => lookup
    case Ok(found) =>
      match conv
      // the conversion runs before the lookup's status is inspected
      case Raise(e) => Run(Raise(e), lookup.calls, lookup.delays)
      case Ok(startUtc) =>
        if found.status == Error then lookup
        else
          var window := GetDayRangeUtc(startUtc).value;
          var id := found.data.event.id;
          var booked := BookIfAvailable(eventName, startUtc, id, BeforeFirst(window.start, 'T'),
                                        reason, userEmail, userName, replies.slots, replies.created);
          Run(booked.result, lookup.calls + ([ListSlots(id, window.start, window.end)] + booked.calls), lookup.delays)
  }

  /** `create_a_cal_booking`: resolve the event type, normalise the requested
      start in the user's zone, list the slots of that UTC day, and book only
      if the exact instant is listed. */
  function CreateACalBooking(eventName: string, datetimeStart: string, timezone: string, reason: string,
                             userEmail: string, userName: string, zones: ZoneRules,
                             replies: CreateReplies): (r: Run)
    requires |replies.catalog| == MaxRetries
    ensures r.delays == FindEventIdByName(eventName, replies.catalog).delays
    ensures r.result.Ok? ==> Consistent(r.result.value)
  {
    NormalisedHasDayWindow(datetimeStart, Some(timezone), zones);
    CreateFromStart(eventName, FindEventIdByName(eventName, replies.catalog),
                    ConvertToUtcFormat(datetimeStart, Some(timezone), zones),
                    reason, userEmail, userName, replies)
  }

  /** The resolved event outcome `create_a_cal_booking` acts on. */
  function EventLookup(eventName: string, catalog: seq<Attempt<CatalogResponse>>): Exec<Outcome>
    requires |catalog| == MaxRetries
  {
    ResolveEvent(eventName, GetAllEventTypes(catalog).reply)
  }

  predicate IsCreate(c: Call) {
    c.CreateBooking?
  }

  /** Some request in `calls` creates a booking. */
  predicate RequestsCreate(calls: seq<Call>) {
    exists i :: 0 <= i < |calls| && IsCreate(calls[i])
  }

  /** Requests made one after another create a booking when either part does. */
  lemma CreateInConcat(a: seq<Call>, b: seq<Call>)
    ensures RequestsCreate(a + b) <==> RequestsCreate(a) || RequestsCreate(b)
  {
    var whole := a + b;
    if RequestsCreate(whole) {
      var i :| 0 <= i < |whole| && IsCreate(whole[i]);
      if i < |a| { assert whole[i] == a[i]; } else { assert whole[i] == b[i - |a|]; }
    }
    if RequestsCreate(a) {
      var i :| 0 <= i < |a| && IsCreate(a[i]);
      assert whole[i] == a[i];
    }
    if RequestsCreate(b) {
      var j :| 0 <= j < |b| && IsCreate(b[j]);
      assert whole[|a| + j] == b[j];
    }
  }

  /** The create request is issued exactly when the lookup found an event,
      the start normalised to `u`, and the slots reply lists `u` under its
      date; the requests are then the lookup's, the whole-day slots request,
      and the booking for `u`. */
  lemma CreateFromStartCalls(eventName: string, lookup: Run, conv: Exec<string>, reason: string,
                             userEmail: string, userName: string, replies: CreateReplies)
    requires conv.Ok? ==> HasDayWindow(conv.value)
    requires lookup.result.Ok? && lookup.result.value.status == Success ==> lookup.result.value.data.Event?
    requires lookup.result.Ok? ==> Consistent(lookup.result.value)
    requires !RequestsCreate(lookup.calls)
    ensures var r := CreateFromStart(eventName, lookup, conv, reason, userEmail, userName, replies);
            var willBook := lookup.result.Ok? && lookup.result.value.status == Success && conv.Ok?
                            && Bookable(replies.slots, conv.value[..10], conv.value);
            && (RequestsCreate(r.calls) <==> willBook)
            && (willBook ==>
                  var u := conv.value;
                  var id := lookup.result.value.data.event.id;
                  r.calls == lookup.calls
                             + [ListSlots(id, u[..10] + "T00:00:00Z", u[..10] + "T23:59:59Z"),
                                CreateBooking(u, id, userName, userEmail, AttendeeTimeZone, reason)])
  {
    var r := CreateFromStart(eventName, lookup, conv, reason, userEmail, userName, replies);
    if lookup.result.Ok? && conv.Ok? && lookup.result.value.status == Success {
      var u := conv.value;
      var id := lookup.result.value.data.event.id;
      var day := u[..10];
      var booked := BookIfAvailable(eventName, u, id, day, reason, userEmail, userName, replies.slots, replies.created);
      var listing := ListSlots(id, day + "T00:00:00Z", day + "T23:59:59Z");
      FoundEventListsItsDay(eventName, lookup, conv, reason, userEmail, userName, replies);
      CreateInConcat(lookup.calls, [listing] + booked.calls);
      CreateInConcat([listing], booked.calls);
      assert !RequestsCreate([listing]);
      BookedOnlyIfListed(eventName, u, id, day, reason, userEmail, userName, replies.slots, replies.created);
      if Bookable(replies.slots, day, u) {
        AppendTwo(lookup.calls, listing, CreateBooking(u, id, userName, userEmail, AttendeeTimeZone, reason));
      }
    } else {
      assert r.calls == lookup.calls;
    }
  }

  lemma AppendTwo(calls: seq<Call>, first: Call, second: Call)
    ensures calls + ([first] + [second]) == calls + [first, second]
  {
  }

  /** Once the event and the instant are known, the slots of the instant's
      whole UTC day are requested, and the booking step follows. */
  lemma FoundEventListsItsDay(eventName: string, lookup: Run, conv: Exec<string>, reason: string,
                              userEmail: string, userName: string, replies: CreateReplies)
    requires conv.Ok? && HasDayWindow(conv.value)
    requires lookup.result.Ok? && lookup.result.value.status == Success && lookup.result.value.data.Event?
    requires Consistent(lookup.result.value)
    ensures var u := conv.value;
            var id := lookup.result.value.data.event.id;
            var day := u[..10];
            CreateFromStart(eventName, lookup, conv, reason, userEmail, userName, replies).calls
            == lookup.calls + ([ListSlots(id, day + "T00:00:00Z", day + "T23:59:59Z")]
                               + BookIfAvailable(eventName, u, id, day, reason, userEmail, userName, replies.slots, replies.created).calls)
  {
    var u := conv.value;
    var window := GetDayRangeUtc(u).value;
    assert window == DayWindow(u[..10] + "T00:00:00Z", u[..10] + "T23:59:59Z");
    assert BeforeFirst(window.start, 'T') == u[..10];
  }

  /** The booking step issues a create request, for the instant itself,
      exactly when the slots reply lists it. */
  lemma BookedOnlyIfListed(eventName: string, startUtc: string, eventTypeId: int, day: string,
                           reason: string, userEmail: string, userName: string,
                           slots: SlotsResponse, created: CreateResponse)
    ensures var calls := BookIfAvailable(eventName, startUtc, eventTypeId, day, reason, userEmail, userName, slots, created).calls;
            && (RequestsCreate(calls) <==> Bookable(slots, day, startUtc))
            && (Bookable(slots, day, startUtc) ==>
                  calls == [CreateBooking(startUtc, eventTypeId, userName, userEmail, AttendeeTimeZone, reason)])
  {
    var calls := BookIfAvailable(eventName, startUtc, eventTypeId, day, reason, userEmail, userName, slots, created).calls;
    if Bookable(slots, day, startUtc) {
      assert IsCreate(calls[0]);
    } else {
      assert calls == [];
    }
  }

  /** A booking is created only for an instant the provider listed: the
      create request is issued exactly when the event type resolved, the
      start normalised to an instant `u`, and the slots reply lists `u` under
      `u`'s UTC date. The requests are then the catalog attempts, the slots
      request for that whole UTC day, and the booking for `u` itself. */
  lemma CreateOnlyForListedSlot(eventName: string, datetimeStart: string, timezone: string, reason: string,
                                userEmail: string, userName: string, zones: ZoneRules, replies: CreateReplies)
    requires |replies.catalog| == MaxRetries
    ensures var r := CreateACalBooking(eventName, datetimeStart, timezone, reason, userEmail, userName, zones, replies);
            var found := EventLookup(eventName, replies.catalog);
            var conv := ConvertToUtcFormat(datetimeStart, Some(timezone), zones);
            var willBook := found.Ok? && found.value.status == Success && conv.Ok?
                            && Bookable(replies.slots, conv.value[..10], conv.value);
            && (RequestsCreate(r.calls) <==> willBook)
            && (willBook ==>
                  var u := conv.value;
                  var id := found.value.data.event.id;
                  r.calls == CatalogCalls(GetAllEventTypes(replies.catalog).attempts)
                             + [ListSlots(id, u[..10] + "T00:00:00Z", u[..10] + "T23:59:59Z"),
                                CreateBooking(u, id, userName, userEmail, AttendeeTimeZone, reason)])
  {
    var lookup := FindEventIdByName(eventName, replies.catalog);
    NormalisedHasDayWindow(datetimeStart, Some(timezone), zones);
    CreateFromStartCalls(eventName, lookup, ConvertToUtcFormat(datetimeStart, Some(timezone), zones),
                         reason, userEmail, userName, replies);
  }

  /** When the event type does not resolve, or the start cannot be
      normalised, nothing but the catalog is requested: the lookup's outcome
      (or the `ValueError`) is returned as it is. */
  lemma CreateStopsAfterFailedLookup(eventName: string, datetimeStart: string, timezone: string, reason: string,
                                     userEmail: string, userName: string, zones: ZoneRules, replies: CreateReplies)
    requires |replies.catalog| == MaxRetries
    ensures var r := CreateACalBooking(eventName, datetimeStart, timezone, reason, userEmail, userName, zones, replies);
            var found := EventLookup(eventName, replies.catalog);
            var conv := ConvertToUtcFormat(datetimeStart, Some(timezone), zones);
            && (found.Ok? && conv.Raise? ==> r.result.Raise? && r.result.exc.ValueError?)
            && (found.Ok? && conv.Ok? && found.value.status == Error ==> r.result == found)
            && (found.Raise? || conv.Raise? || found.value.status == Error ==>
                  forall i :: 0 <= i < |r.calls| ==> r.calls[i] == ListEventTypes(Username))
  {
    assert FindEventIdByName(eventName, replies.catalog).result == EventLookup(eventName, replies.catalog);
  }

  // ---------------------------------------------------------------------
  // list_all_cal_bookings
  // ---------------------------------------------------------------------

  /** A listed booking: the provider's `start`/`end` renamed to
      `startTime`/`endTime`, missing attendees read as none. */
  function InfoOf(b: ProviderBooking): BookingInfo {
    BookingInfo(b.uid, b.id, b.title, b.start, b.end, b.status, b.attendees.GetOr([]))
  }

  function InfosOf(bookings: seq<ProviderBooking>): (infos: seq<BookingInfo>)
    ensures |infos| == |bookings|
    ensures forall i :: 0 <= i < |bookings| ==> infos[i] == InfoOf(bookings[i])
  {
    seq(|bookings|, i requires 0 <= i < |bookings| => InfoOf(bookings[i]))
  }

  /** `list_all_cal_bookings`: one request for the user's upcoming bookings;
      an empty or missing list is `EMPTY`, any other successful reply is
      `SUCCESS` with every booking in the provider's order, and anything else
      is `UNKNOWN` carrying the raw reply. */
  function ListAllCalBookings(userEmail: string, response: BookingsResponse): (r: Run)
    ensures r.calls == [UpcomingBookingsCall(userEmail)] && r.delays == []
    ensures r.result.Ok? && Consistent(r.result.value)
    ensures r.result.value.status == Success <==> response.status == Some("success")
    ensures r.result.value.code == ListAllCalBookingsEmpty <==>
              response.status == Some("success") && (response.data.None? || response.data.value == [])
    ensures r.result.value.code == ListAllCalBookingsSuccess ==>
              && response.data.Some?
              && r.result.value.data.Bookings?
              && |r.result.value.data.infos| == |response.data.value| > 0
    ensures r.result.value.status == Error ==>
              r.result.value == Outcome(Error, Unknown, "Unknown error from `list_all_cal_bookings`", RawBookings(response))
  {
    var outcome :=
      if response.status == Some("success") then
        if response.data.None? || response.data.value == [] then
          Outcome(Success, ListAllCalBookingsEmpty, "No bookings found for " + userEmail, Bookings([]))
        else
          // the source's spelling of the message is kept
          Outcome(Success, ListAllCalBookingsSuccess, "Successfully retrived a list of bookings relevant to " + userEmail,
                  Bookings(InfosOf(response.data.value)))
      else
        Outcome(Error, Unknown, "Unknown error from `list_all_cal_bookings`", RawBookings(response));
    Run(Ok(outcome), [UpcomingBookingsCall(userEmail)], [])
  }

  /** Listing loses nothing: every provider booking appears once, in order,
      with its uid, id, title, start, end, status and attendees carried over,
      so the provider's view can be rebuilt from the listing (apart from the
      `startTime`/`endTime` keys, which the listing does not read). */
  lemma ListingPreservesBookings(userEmail: string, response: BookingsResponse)
    requires response.status == Some("success") && response.data.Some? && response.data.value != []
    ensures var r := ListAllCalBookings(userEmail, response).result.value;
            var bookings := response.data.value;
            && r.code == ListAllCalBookingsSuccess
            && |r.data.infos| == |bookings|
            && forall i :: 0 <= i < |bookings| ==>
                 var info := r.data.infos[i];
                 ProviderBooking(info.uid, info.id, info.title, info.startTime, info.endTime,
                                 bookings[i].startTime, bookings[i].endTime, info.status,
                                 if bookings[i].attendees.None? then None else Some(info.attendees))
                 == bookings[i]
  {
    var bookings := response.data.value;
    var infos := InfosOf(bookings);
    assert ListAllCalBookings(userEmail, response).result.value.data == Bookings(infos);
    forall i | 0 <= i < |bookings|
      ensures ProviderBooking(infos[i].uid, infos[i].id, infos[i].title, infos[i].startTime, infos[i].endTime,
                              bookings[i].startTime, bookings[i].endTime, infos[i].status,
                              if bookings[i].attendees.None? then None else Some(infos[i].attendees))
              == bookings[i]
    {
      assert infos[i] == InfoOf(bookings[i]);
    }
  }

  // ---------------------------------------------------------------------
  // cancel_user_booking
  // ---------------------------------------------------------------------

  /** The provider's replies to the requests `cancel_user_booking` may issue. */
  datatype CancelReplies = CancelReplies(bookings: BookingsResponse, cancel: Attempt<CancelResponse>)

  /** How the cancellation request's reply (or exception) is reported. */
  function CancelOutcome(bookingName: string, datetimeStart: string, found: BookingRef,
                         reply: Attempt<CancelResponse>): (r: Outcome)
    ensures r.code in {BookingFoundAndCancelled, BookingCancellationFailed}
    ensures Consistent(r)
    ensures r.status == Success <==> reply.Returned? && reply.reply.status == Some("success")
    ensures r.status == Success <==> r.code == BookingFoundAndCancelled
    ensures reply.Threw? ==> r.data == CancelRaised(found, reply.message)
    ensures reply.Returned? && r.status == Error ==>
              r.message == "Failed to cancel: " + reply.reply.message.GetOr("Unknown error")
              && r.data == CancelFailed(found, reply.reply)
  {
    match reply
    case Threw(m) =>
      Outcome(Error, BookingCancellationFailed, "Exception occurred while cancelling booking: " + m, CancelRaised(found, m))
    case Returned(resp) =>
      if resp.status == Some("success") then
        Outcome(Success, BookingFoundAndCancelled, "Booking cancelled '" + bookingName + "' at " + datetimeStart,
                Cancelled(found, resp))
      else
        Outcome(Error, BookingCancellationFailed, "Failed to cancel: " + resp.message.GetOr("Unknown error"),
                CancelFailed(found, resp))
  }

  /** `cancel_user_booking`: find the booking by name and start, then cancel
      it by uid; a failed lookup is returned as it is. */
  function CancelUserBooking(userEmail: string, bookingName: string, datetimeStart: string,
                             replies: CancelReplies): (r: Run)
    ensures r.delays == []
    ensures r.result.Ok? ==> Consistent(r.result.value)
  {
    var lookup := FindBookingUidByNameAndDatetime(userEmail, bookingName, datetimeStart, replies.bookings);
    match lookup.result
    case Raise(_) => lookup
    case Ok(found) =>
      if found.status == Error then lookup
      else
        var booking := found.data.found;
        Run(Ok(CancelOutcome(bookingName, datetimeStart, booking, replies.cancel)),
            lookup.calls + [CancelBooking(booking.uid)], [])
  }

  /** A booking reply that gets past the lookup's error ladder. */
  predicate UsableBookings(response: BookingsResponse) {
    response.error.None? && response.status != Some("error") && response.data.Some?
  }

  /** Only the booking the user named is cancelled: a cancellation request is
      issued exactly when the requested start normalises to `u`, the bookings
      reply is usable, and some booking's lowercased title is the normalised
      name with its start normalising to `u`; the request then names the uid
      of the first such booking, after a single listing request. */
  lemma CancelOnlyTheNamedBooking(userEmail: string, bookingName: string, datetimeStart: string, replies: CancelReplies)
    ensures var r := CancelUserBooking(userEmail, bookingName, datetimeStart, replies);
            var conv := NormaliseStart(datetimeStart);
            var q := Query(bookingName);
            && (|r.calls| == 2 <==>
                  && conv.Ok?
                  && UsableBookings(replies.bookings)
                  && exists k :: IsFirstBookingMatch(NormaliseStart, q, conv.value, replies.bookings.data.value, k))
            && (forall k :: conv.Ok? && UsableBookings(replies.bookings)
                            && IsFirstBookingMatch(NormaliseStart, q, conv.value, replies.bookings.data.value, k) ==>
                  r.calls == [UpcomingBookingsCall(userEmail), CancelBooking(replies.bookings.data.value[k].uid)])
  {
    var conv := NormaliseStart(datetimeStart);
    assert conv == ConvertToUtcFormat(datetimeStart, None, NoZones);
    CancelIssuedIffFound(userEmail, bookingName, datetimeStart, replies, conv);
    CancelNamesFirstMatch(userEmail, bookingName, datetimeStart, replies, conv);
  }

  /** A cancellation request is issued exactly when the lookup finds a
      booking, given the start's normalisation `conv`. */
  lemma CancelIssuedIffFound(userEmail: string, bookingName: string, datetimeStart: string, replies: CancelReplies,
                             conv: Exec<string>)
    requires conv == ConvertToUtcFormat(datetimeStart, None, NoZones)
    ensures |CancelUserBooking(userEmail, bookingName, datetimeStart, replies).calls| == 2 <==>
              && conv.Ok?
              && UsableBookings(replies.bookings)
              && exists k :: IsFirstBookingMatch(NormaliseStart, Query(bookingName), conv.value, replies.bookings.data.value, k)
  {
    CancelFollowsLookup(userEmail, bookingName, datetimeStart, replies);
    if conv.Ok? {
      LookupFindsFirstMatch(bookingName, datetimeStart, conv.value, replies.bookings);
    }
  }

  /** The cancellation request names the uid of the first matching booking. */
  lemma CancelNamesFirstMatch(userEmail: string, bookingName: string, datetimeStart: string, replies: CancelReplies,
                              conv: Exec<string>)
    requires conv == ConvertToUtcFormat(datetimeStart, None, NoZones)
    ensures forall k :: conv.Ok? && UsableBookings(replies.bookings)
                        && IsFirstBookingMatch(NormaliseStart, Query(bookingName), conv.value, replies.bookings.data.value, k) ==>
              CancelUserBooking(userEmail, bookingName, datetimeStart, replies).calls
              == [UpcomingBookingsCall(userEmail), CancelBooking(replies.bookings.data.value[k].uid)]
  {
    CancelFollowsLookup(userEmail, bookingName, datetimeStart, replies);
    if conv.Ok? {
      LookupFindsFirstMatch(bookingName, datetimeStart, conv.value, replies.bookings);
    }
  }

  /** The cancellation request follows a successful lookup, after its one
      listing request, and names the uid the lookup found. */
  lemma CancelFollowsLookup(userEmail: string, bookingName: string, datetimeStart: string, replies: CancelReplies)
    ensures var lookup := FindBookingUidByNameAndDatetime(userEmail, bookingName, datetimeStart, replies.bookings);
            var r := CancelUserBooking(userEmail, bookingName, datetimeStart, replies);
            && (|r.calls| == 2 <==> lookup.result.Ok? && lookup.result.value.status == Success)
            && (lookup.result.Ok? && lookup.result.value.status == Success ==>
                  r.calls == lookup.calls + [CancelBooking(lookup.result.value.data.found.uid)])
  {
  }

  /** Given a normalised start, the lookup succeeds exactly when the reply is
      usable and some booking matches, and it then finds the first match. */
  lemma LookupFindsFirstMatch(bookingName: string, datetimeStart: string, startUtc: string, response: BookingsResponse)
    ensures var r := ResolveBooking(bookingName, datetimeStart, startUtc, response);
            var q := Query(bookingName);
            && (r.Ok? && r.value.status == Success <==>
                  UsableBookings(response) && exists k :: IsFirstBookingMatch(NormaliseStart, q, startUtc, response.data.value, k))
            && (forall k :: UsableBookings(response) && IsFirstBookingMatch(NormaliseStart, q, startUtc, response.data.value, k) ==>
                  r == Ok(Outcome(Success, FoundMatch, "Found exact match for booking", FoundBooking(FoundRef(response.data.value[k])))))
  {
    if UsableBookings(response) {
      var q := Query(bookingName);
      var bookings := response.data.value;
      var k := FirstBookingMatchSpec(NormaliseStart, q, startUtc, bookings, 0);
      BookingLookupIsExact(bookingName, datetimeStart, startUtc, response);
      if FirstBookingMatch(NormaliseStart, q, startUtc, bookings, 0).Some? {
        assert IsFirstBookingMatch(NormaliseStart, q, startUtc, bookings, k);
      } else {
        forall k' | 0 <= k' ensures !IsFirstBookingMatch(NormaliseStart, q, startUtc, bookings, k') {
        }
      }
    }
  }

  /** The outcome of a cancellation that reached the provider: cancelled
      exactly when the provider's reply says "success"; otherwise the failure
      carries the found booking and the provider's message or exception. */
  lemma CancelReportsProviderVerdict(userEmail: string, bookingName: string, datetimeStart: string, replies: CancelReplies)
    ensures var r := CancelUserBooking(userEmail, bookingName, datetimeStart, replies);
            |r.calls| == 2 ==>
              && r.result.Ok?
              && (r.result.value.code == BookingFoundAndCancelled <==>
                    replies.cancel.Returned? && replies.cancel.reply.status == Some("success"))
              && (replies.cancel.Threw? ==>
                    r.result.value.message == "Exception occurred while cancelling booking: " + replies.cancel.message)
  {
  }
}
