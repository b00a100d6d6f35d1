/** The data the booking core exchanges: provider replies, the records it
    builds from them, the closed outcome taxonomy of `backend/cal.py`, and the
    trace of provider calls an operation issues. */
module Outcomes {
  import opened Common

  /** `FunctionReturnStatus`. */
  datatype Status = Success | Error {
    function Wire(): string {
      match this
      case Success => "success"
      case Error => "error"
    }
  }

  /** `FunctionReturnCode`: every outcome the core can report. */
  datatype Code =
    | CalcomApiRequestFailed
    | UnexpectedResponseFormat
    | FoundMatch
    | NoMatch
    | SlotsRequestFailed
    | AllMatched
    | AvailabilityNoExactMatch
    | ListAllCalBookingsSuccess
    | ListAllCalBookingsEmpty
    | BookingFoundAndCancelled
    | BookingNotFound
    | BookingCancellationFailed
    | Unknown
  {
    /** The string the code travels as, which the front end switches on. */
    function Wire(): string {
      match this
      case CalcomApiRequestFailed => "calcom_api_request_failed"
      case UnexpectedResponseFormat => "unexpected_response_format"
      case FoundMatch => "found_match"
      case NoMatch => "no_match"
      case SlotsRequestFailed => "slots_request_failed"
      case AllMatched => "all_matched"
      case AvailabilityNoExactMatch => "availability_no_exact_match"
      case ListAllCalBookingsSuccess => "list_all_cal_bookings_success"
      case ListAllCalBookingsEmpty => "list_all_cal_bookings_empty"
      case BookingFoundAndCancelled => "booking_found_and_cancelled"
      case BookingNotFound => "booking_not_found"
      case BookingCancellationFailed => "booking_cancellation_failed"
      case Unknown => "unknown"
    }
  }

  // ---------------------------------------------------------------------
  // Provider payloads
  // ---------------------------------------------------------------------

  /** An event type in the provider's catalog. */
  datatype EventType = EventType(id: int, title: string, slug: string)

  /** One bookable instant; the provider keys lists of these by UTC date. */
  datatype Slot = Slot(start: string)

  /** One entry of the slots object: a `YYYY-MM-DD` date key and its slots,
      kept in the order the reply lists them. */
  datatype DaySlots = DaySlots(date: string, slots: seq<Slot>)

  datatype Attendee = Attendee(name: Option<string>, email: Option<string>)

  /** A booking as the provider returns it: every key the core reads with
      `.get`, each of which may be missing. The bulk-cancel helper reads
      `startTime`/`endTime`; the resolver reads `start`/`end`. */
  datatype ProviderBooking = ProviderBooking(
    uid: Option<string>,
    id: Option<int>,
    title: Option<string>,
    start: Option<string>,
    end: Option<string>,
    startTime: Option<string>,
    endTime: Option<string>,
    status: Option<string>,
    attendees: Option<seq<Attendee>>)

  /** A decoded reply body: the keys the core inspects. A transport failure
      arrives as `{status: "error", error: <text>}`. */
  datatype Response<D> = Response(
    error: Option<string>,
    status: Option<string>,
    message: Option<string>,
    data: Option<D>)

  type CatalogResponse = Response<seq<EventType>>
  type SlotsResponse = Response<seq<DaySlots>>
  type CreateResponse = Response<ProviderBooking>
  type BookingsResponse = Response<seq<ProviderBooking>>
  type CancelResponse = Response<ProviderBooking>

  // ---------------------------------------------------------------------
  // Records the core builds, and the outcome shape
  // ---------------------------------------------------------------------

  /** `{title, slug, id}` of a resolved event type. */
  datatype EventRef = EventRef(title: string, slug: string, id: int)

  /** A listed booking, with the provider's `start`/`end` renamed. */
  datatype BookingInfo = BookingInfo(
    uid: Option<string>,
    id: Option<int>,
    title: Option<string>,
    startTime: Option<string>,
    endTime: Option<string>,
    status: Option<string>,
    attendees: seq<Attendee>)

  /** The booking the name-and-time lookup found. */
  datatype BookingRef = BookingRef(
    uid: Option<string>,
    id: Option<int>,
    title: Option<string>,
    startTime: Option<string>,
    endTime: Option<string>)

  /** One alternative offered when no booking matched. */
  datatype BookingSummary = BookingSummary(
    uid: Option<string>,
    title: Option<string>,
    startTime: Option<string>,
    endTime: Option<string>)

  /** Every shape the `data` field of an outcome takes. */
  datatype Data =
    | ErrorText(text: string)
    | RawCatalog(catalog: CatalogResponse)
    | RawBookings(bookingsReply: BookingsResponse)
    | Event(event: EventRef)
    | Events(events: seq<EventRef>)
    | Slots(days: seq<DaySlots>)
    | Created(booking: ProviderBooking)
    | Bookings(infos: seq<BookingInfo>)
    | FoundBooking(found: BookingRef)
    | Summaries(summaries: seq<BookingSummary>)
    | Cancelled(cancelledBooking: BookingRef, cancellationResponse: CancelResponse)
    | CancelFailed(foundBooking: BookingRef, cancellationError: CancelResponse)
    | CancelRaised(raisedBooking: BookingRef, exception: string)

  /** `function_return(status, code, message, data)`. */
  datatype Outcome = Outcome(status: Status, code: Code, message: string, data: Data)

  /** The data shape each code travels with, which the front end's
      formatter for that code reads. */
  predicate Consistent(o: Outcome) {
    match o.code
    case AllMatched => o.data.Created?
    case ListAllCalBookingsSuccess => o.data.Bookings?
    case BookingFoundAndCancelled => o.data.Cancelled?
    case BookingNotFound => o.data.Summaries?
    case BookingCancellationFailed => o.data.CancelFailed? || o.data.CancelRaised?
    case NoMatch => o.data.Events?
    case AvailabilityNoExactMatch => o.data.Slots?
    case _ => true
  }

  /** A request the core sends to the provider, with the arguments that
      distinguish it. */
  datatype Call =
    | ListEventTypes(username: string)
    | ListSlots(eventTypeId: int, windowStart: string, windowEnd: string)
    | CreateBooking(start: string, eventTypeId: int, name: string, email: string, timeZone: string, notes: string)
    | ListBookings(attendeeEmail: string, bookingStatus: string)
    | CancelBooking(bookingUid: Option<string>)

  /** What running one core operation produced: its return value or the
      exception it raised, the provider calls it issued in order, and the
      back-off waits (milliseconds) it requested. */
  datatype Run = Run(result: Exec<Outcome>, calls: seq<Call>, delays: seq<int>)
}
