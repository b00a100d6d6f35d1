/** The bulk-cancellation helpers of `backend/experiments/cal_helpers.py`:
    list an attendee's bookings, then (unless it is a dry run) cancel each
    one, partitioning the results into cancelled and failed. */
module BulkCancel {
  import opened Common
  import opened Outcomes
  import Orchestrator

  /** A booking as the helper records it. Unlike `list_all_cal_bookings` it
      reads the provider's `startTime`/`endTime` keys. */
  function HelperInfoOf(b: ProviderBooking): BookingInfo {
    BookingInfo(b.uid, b.id, b.title, b.startTime, b.endTime, b.status, b.attendees.GetOr([]))
  }

  /** `get_all_bookings_for_cancellation`: every booking of a successful reply
      with a non-empty list, in order; nothing otherwise. */
  function BookingsForCancellation(response: BookingsResponse): (r: seq<BookingInfo>)
    ensures !(response.status == Some("success") && response.data.Some? && response.data.value != []) ==> r == []
    ensures response.status == Some("success") && response.data.Some? ==>
              && |r| == |response.data.value|
              && forall i :: 0 <= i < |r| ==>
                   && r[i].uid == response.data.value[i].uid
                   && r[i].id == response.data.value[i].id
                   && r[i].title == response.data.value[i].title
                   && r[i].startTime == response.data.value[i].startTime
                   && r[i].endTime == response.data.value[i].endTime
                   && r[i].status == response.data.value[i].status
                   && r[i].attendees == response.data.value[i].attendees.GetOr([])
  {
    if response.status == Some("success") && response.data.Some? && response.data.value != [] then
      var data := response.data.value;
      seq(|data|, i requires 0 <= i < |data| => HelperInfoOf(data[i]))
    else []
  }

  /** The helper and `list_all_cal_bookings` describe a successful reply's
      bookings identically exactly when every booking's `startTime`/`endTime`
      equal its `start`/`end`: the two read different keys. */
  lemma HelperAgreesWithListingIff(userEmail: string, response: BookingsResponse)
    requires response.status == Some("success") && response.data.Some? && response.data.value != []
    ensures var data := response.data.value;
            BookingsForCancellation(response) == Orchestrator.ListAllCalBookings(userEmail, response).result.value.data.infos
            <==> forall i :: 0 <= i < |data| ==> data[i].startTime == data[i].start && data[i].endTime == data[i].end
  {
    var data := response.data.value;
    var helper := BookingsForCancellation(response);
    var listed := Orchestrator.ListAllCalBookings(userEmail, response).result.value.data.infos;
    if helper == listed {
      forall i | 0 <= i < |data| ensures data[i].startTime == data[i].start && data[i].endTime == data[i].end {
        assert helper[i] == listed[i];
      }
    }
  }

  /** `{"uid", "title", "response"}` of a booking the provider cancelled. */
  datatype CancelledEntry = CancelledEntry(uid: Option<string>, title: Option<string>, response: CancelResponse)

  /** `{"uid", "title", "error", "response"}` of a booking that was not
      cancelled; `response` is missing when the request raised. */
  datatype FailedEntry = FailedEntry(uid: Option<string>, title: Option<string>, error: string, response: Option<CancelResponse>)

  /** The dictionary `cancel_all_bookings` returns; `dryRun` is the optional
      `dry_run` key. */
  datatype BulkReport = BulkReport(cancelled: seq<CancelledEntry>, failed: seq<FailedEntry>, total: nat, dryRun: Option<bool>)

  /** The provider accepted the cancellation. */
  predicate CancelSucceeded(a: Attempt<CancelResponse>) {
    a.Returned? && a.reply.status == Some("success")
  }

  function FailedOf(b: BookingInfo, a: Attempt<CancelResponse>): FailedEntry {
    match a
    case Threw(m) => FailedEntry(b.uid, b.title, m, None)
    case Returned(resp) => FailedEntry(b.uid, b.title, resp.message.GetOr("Unknown error"), Some(resp))
  }

  /** Reference partition: the entries for the bookings the provider
      cancelled among the first `n`, in order. */
  function CancelledUpTo(bookings: seq<BookingInfo>, replies: seq<Attempt<CancelResponse>>, n: nat): seq<CancelledEntry>
    requires n <= |bookings| == |replies|
  {
    if n == 0 then []
    else
      CancelledUpTo(bookings, replies, n - 1)
      + (if CancelSucceeded(replies[n - 1])
         then [CancelledEntry(bookings[n - 1].uid, bookings[n - 1].title, replies[n - 1].reply)] else [])
  }

  /** Reference partition: the entries for the other bookings among the
      first `n`, in order. */
  function FailedUpTo(bookings: seq<BookingInfo>, replies: seq<Attempt<CancelResponse>>, n: nat): seq<FailedEntry>
    requires n <= |bookings| == |replies|
  {
    if n == 0 then []
    else
      FailedUpTo(bookings, replies, n - 1)
      + (if CancelSucceeded(replies[n - 1]) then [] else [FailedOf(bookings[n - 1], replies[n - 1])])
  }

  /** The cancellation requests for the first `n` bookings, in order. */
  function CancelCalls(bookings: seq<BookingInfo>, n: nat): (calls: seq<Call>)
    requires n <= |bookings|
    ensures |calls| == n
    ensures forall i :: 0 <= i < n ==> calls[i] == CancelBooking(bookings[i].uid)
  {
    seq(n, i requires 0 <= i < n => CancelBooking(bookings[i].uid))
  }

  /** `cancel_all_bookings`: `replies[i]` is the provider's answer (or the
      exception) for the `i`-th booking's cancellation request. */
  method CancelAllBookings(attendeeEmail: string, status: string, dryRun: bool,
                           response: BookingsResponse, replies: seq<Attempt<CancelResponse>>)
    returns (report: BulkReport, calls: seq<Call>)
    requires |replies| == |BookingsForCancellation(response)|
    ensures var bookings := BookingsForCancellation(response);
            && |calls| >= 1 && calls[0] == ListBookings(attendeeEmail, status)
            && report.total == |bookings|
            && (bookings == [] ==> report == BulkReport([], [], 0, None) && calls == [calls[0]])
            && (bookings != [] && dryRun ==> report == BulkReport([], [], |bookings|, Some(true)) && calls == [calls[0]])
            && (bookings != [] && !dryRun ==>
                  && report.dryRun.None?
                  && report.cancelled == CancelledUpTo(bookings, replies, |bookings|)
                  && report.failed == FailedUpTo(bookings, replies, |bookings|)
                  && calls == [calls[0]] + CancelCalls(bookings, |bookings|))
  {
    var bookings := BookingsForCancellation(response);
    calls := [ListBookings(attendeeEmail, status)];
    if bookings == [] {
      return BulkReport([], [], 0, None), calls;
    }
    if dryRun {
      return BulkReport([], [], |bookings|, Some(true)), calls;
    }
    var cancelled: seq<CancelledEntry> := [];
    var failed: seq<FailedEntry> := [];
    var i := 0;
    while i < |bookings|
      invariant 0 <= i <= |bookings|
      invariant cancelled == CancelledUpTo(bookings, replies, i)
      invariant failed == FailedUpTo(bookings, replies, i)
      invariant calls == [ListBookings(attendeeEmail, status)] + CancelCalls(bookings, i)
    {
      var booking := bookings[i];
      calls := calls + [CancelBooking(booking.uid)];
      match replies[i] {
        case Threw(m) =>
          failed := failed + [FailedEntry(booking.uid, booking.title, m, None)];
        case Returned(resp) =>
          if resp.status == Some("success") {
            cancelled := cancelled + [CancelledEntry(booking.uid, booking.title, resp)];
          } else {
            failed := failed + [FailedEntry(booking.uid, booking.title, resp.message.GetOr("Unknown error"), Some(resp))];
          }
      }
      i := i + 1;
    }
    report := BulkReport(cancelled, failed, |bookings|, None);
  }

  /** Every booking lands in exactly one of the two lists: the lists'
      lengths add up to the number of bookings processed. */
  lemma {:induction false} PartitionIsComplete(bookings: seq<BookingInfo>, replies: seq<Attempt<CancelResponse>>, n: nat)
    requires n <= |bookings| == |replies|
    ensures |CancelledUpTo(bookings, replies, n)| + |FailedUpTo(bookings, replies, n)| == n
  {
    if n > 0 {
      PartitionIsComplete(bookings, replies, n - 1);
    }
  }

  /** A booking's entry is among the cancelled exactly when the provider
      answered "success", and among the failed exactly otherwise; every
      cancelled entry carries a successful reply. */
  lemma {:induction false} PartitionIsByVerdict(bookings: seq<BookingInfo>, replies: seq<Attempt<CancelResponse>>, n: nat)
    requires n <= |bookings| == |replies|
    ensures forall i :: 0 <= i < n && CancelSucceeded(replies[i]) ==>
              CancelledEntry(bookings[i].uid, bookings[i].title, replies[i].reply) in CancelledUpTo(bookings, replies, n)
    ensures forall i :: 0 <= i < n && !CancelSucceeded(replies[i]) ==>
              FailedOf(bookings[i], replies[i]) in FailedUpTo(bookings, replies, n)
    ensures forall e :: e in CancelledUpTo(bookings, replies, n) ==> e.response.status == Some("success")
    ensures forall e :: e in FailedUpTo(bookings, replies, n) ==>
              e.response.None? || e.response.value.status != Some("success")
  {
    if n > 0 {
      PartitionIsByVerdict(bookings, replies, n - 1);
    }
  }
}
