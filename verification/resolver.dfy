/** The entity resolver of `backend/cal.py`: `find_event_id_by_name` (exact
    title/slug match first, then the best containment score) and
    `find_booking_uid_by_name_and_datetime` (exact title and UTC start). */
module Resolver {
  import opened Common
  import opened Outcomes
  import opened Text
  import opened Timestamps
  import opened ProviderClient

  /** The normalised query: `name.lower().strip()`. */
  function Query(name: string): string {
    PyStrip(Lower(name))
  }

  // ---------------------------------------------------------------------
  // Event types
  // ---------------------------------------------------------------------

  /** The query equals the lowercased title or slug. */
  predicate IsExact(q: string, e: EventType) {
    q == Lower(e.title) || q == Lower(e.slug)
  }

  /** The query occurs inside the lowercased title or slug. */
  predicate QueryInside(q: string, e: EventType) {
    Contains(Lower(e.title), q) || Contains(Lower(e.slug), q)
  }

  /** The lowercased title or slug occurs inside the query. */
  predicate QueryAround(q: string, e: EventType) {
    Contains(q, Lower(e.title)) || Contains(q, Lower(e.slug))
  }

  function Max(a: int, b: int): int {
    if a < b then b else a
  }

  /** `len(q) / max(len(title), len(slug))` when the query is inside the title
      or slug, else 0. The denominator is positive for every event that is
      not an exact match (`DenominatorsPositive`), the only events scored. */
  function InsideScore(q: string, e: EventType): real {
    var m := Max(|e.title|, |e.slug|);
    if QueryInside(q, e) && m > 0 then (|q| as real) / (m as real) else 0.0
  }

  /** `len(title) / len(q)` when the title or slug is inside the query (the
      title's length even when only the slug matched), else 0. */
  function AroundScore(q: string, e: EventType): real {
    if QueryAround(q, e) && |q| > 0 then (|e.title| as real) / (|q| as real) else 0.0
  }

  lemma DenominatorsPositive(q: string, e: EventType)
    requires !IsExact(q, e)
    ensures QueryInside(q, e) ==> Max(|e.title|, |e.slug|) > 0
    ensures QueryAround(q, e) ==> |q| > 0
  {
    if QueryInside(q, e) && Max(|e.title|, |e.slug|) == 0 {
      if Contains(Lower(e.title), q) { ContainedInEmpty(q); } else { ContainedInEmpty(q); }
    }
    if QueryAround(q, e) && |q| == 0 {
      if Contains(q, Lower(e.title)) { ContainedInEmpty(Lower(e.title)); }
      else { ContainedInEmpty(Lower(e.slug)); }
    }
  }

  /** The better of an event's two containment scores: the value it competes
      with in the fuzzy pass. */
  function Score(q: string, e: EventType): real {
    var a := InsideScore(q, e);
    var b := AroundScore(q, e);
    if a < b then b else a
  }

  /** Where the scan over the catalog ends: an exact match returned at once,
      or the best candidate so far with its score. */
  datatype Scan = Exact(exact: EventType) | Best(best: Option<EventType>, score: real)

  /** What one iteration does with an event that is not an exact match:
      replace the best candidate on a strictly greater inside-score, then
      again on a strictly greater around-score. */
  function Consider(q: string, e: EventType, best: Option<EventType>, bestScore: real): (Option<EventType>, real) {
    var inside := InsideScore(q, e);
    var (best1, score1) := if QueryInside(q, e) && inside > bestScore then (Some(e), inside) else (best, bestScore);
    var around := AroundScore(q, e);
    if QueryAround(q, e) && around > score1 then (Some(e), around) else (best1, score1)
  }

  /** The loop over `response["data"]` from index `i`, as written: return on
      an exact match, otherwise consider the event and go on. */
  function ScanFrom(q: string, events: seq<EventType>, i: nat, best: Option<EventType>, bestScore: real): Scan
    requires i <= |events|
    decreases |events| - i
  {
    if i == |events| then Best(best, bestScore)
    else
      var e := events[i];
      if IsExact(q, e) then Exact(e)
      else
        var next := Consider(q, e, best, bestScore);
        ScanFrom(q, events, i + 1, next.0, next.1)
  }

  function RefOf(e: EventType): EventRef {
    EventRef(e.title, e.slug, e.id)
  }

  function RefsOf(events: seq<EventType>): (refs: seq<EventRef>)
    ensures |refs| == |events|
    ensures forall i :: 0 <= i < |events| ==> refs[i] == RefOf(events[i])
  {
    seq(|events|, i requires 0 <= i < |events| => RefOf(events[i]))
  }

  const ApiFailedMessage: string := "Request to Cal.com API failed"
  const UnexpectedFormatMessage: string := "Unexpected response format from Cal.com API"

  /** The part of `find_event_id_by_name` after the catalog request: the
      error ladder, then the scan, then the no-match fallback. */
  function ResolveEvent(eventName: string, response: CatalogResponse): (r: Exec<Outcome>)
    ensures response.error.Some? ==>
              r == Ok(Outcome(Error, CalcomApiRequestFailed, ApiFailedMessage, ErrorText(response.error.value)))
    ensures response.error.None? && response.status == Some("error") ==>
              r == Ok(Outcome(Error, CalcomApiRequestFailed, ApiFailedMessage, RawCatalog(response)))
    ensures response.error.None? && response.status != Some("error") && response.data.None? ==>
              r == Ok(Outcome(Error, UnexpectedResponseFormat, UnexpectedFormatMessage, RawCatalog(response)))
    ensures r.Ok? ==> r.value.code in {CalcomApiRequestFailed, UnexpectedResponseFormat, FoundMatch, NoMatch}
    ensures r.Ok? ==> (r.value.status == Success <==> r.value.code == FoundMatch)
    ensures r.Ok? && r.value.code == FoundMatch ==> r.value.data.Event?
    ensures r.Ok? ==> Consistent(r.value)
    ensures r.Raise? ==> r == Raise(KeyError("status")) && response.status.None? && response.data.Some?
  {
    if response.error.Some? then
      Ok(Outcome(Error, CalcomApiRequestFailed, ApiFailedMessage, ErrorText(response.error.value)))
    else if response.status == Some("error") then
      // `response.get("error", response)`: there is no `error` key here
      Ok(Outcome(Error, CalcomApiRequestFailed, ApiFailedMessage, RawCatalog(response)))
    else if response.data.None? then
      Ok(Outcome(Error, UnexpectedResponseFormat, UnexpectedFormatMessage, RawCatalog(response)))
    else
      var events := response.data.value;
      match ScanFrom(Query(eventName), events, 0, None, 0.0)
      case Exact(e) => Ok(Outcome(Success, FoundMatch, "Found the exact match", Event(RefOf(e))))
      case Best(Some(e), _) => Ok(Outcome(Success, FoundMatch, "Found the best match", Event(RefOf(e))))
      case Best(None, _) =>
        match response.status
        case None => Raise(KeyError("status"))
        case Some(st) =>
          var alternatives := if st == "success" then RefsOf(events) else [];
          Ok(Outcome(Error, NoMatch, "No matching event found for '" + eventName + "'", Events(alternatives)))
  }

  /** `find_event_id_by_name`: fetch the catalog with retries, then resolve. */
  function FindEventIdByName(eventName: string, replies: seq<Attempt<CatalogResponse>>): (r: Run)
    requires |replies| == MaxRetries
    ensures 1 <= |r.calls| <= MaxRetries
    ensures forall i :: 0 <= i < |r.calls| ==> r.calls[i] == ListEventTypes(Username)
    ensures |r.delays| == |r.calls| - 1
    ensures r.result == ResolveEvent(eventName, GetAllEventTypes(replies).reply)
  {
    var fetched := GetAllEventTypes(replies);
    Run(ResolveEvent(eventName, fetched.reply), CatalogCalls(fetched.attempts), fetched.delays)
  }

  // ---------------------------------------------------------------------
  // Properties of the event-type scan
  // ---------------------------------------------------------------------

  /** A catalog reply that gets past the error ladder. */
  predicate Usable(response: CatalogResponse) {
    response.error.None? && response.status != Some("error") && response.data.Some?
  }

  lemma {:induction false} ScanReachesExact(q: string, events: seq<EventType>, i: nat, best: Option<EventType>,
                                            bestScore: real, k: nat)
    requires i <= k < |events| && IsExact(q, events[k])
    requires forall j :: i <= j < k ==> !IsExact(q, events[j])
    ensures ScanFrom(q, events, i, best, bestScore) == Exact(events[k])
    decreases k - i
  {
    if i < k {
      var next := Consider(q, events[i], best, bestScore);
      ScanReachesExact(q, events, i + 1, next.0, next.1, k);
    }
  }

  /** Exact match wins at once: when the normalised query equals the
      lowercased title or slug of some event, the first such event in catalog
      order is returned as an exact `FOUND_MATCH`, whatever any event scores. */
  lemma ExactMatchWins(eventName: string, response: CatalogResponse, k: nat)
    requires Usable(response)
    requires k < |response.data.value| && IsExact(Query(eventName), response.data.value[k])
    requires forall j :: 0 <= j < k ==> !IsExact(Query(eventName), response.data.value[j])
    ensures ResolveEvent(eventName, response)
            == Ok(Outcome(Success, FoundMatch, "Found the exact match", Event(RefOf(response.data.value[k]))))
  {
    ScanReachesExact(Query(eventName), response.data.value, 0, None, 0.0, k);
  }

  /** After scanning `events[..n]` with no exact match: `k < 0` means nothing
      scored above zero and nothing is held; otherwise `events[k]` is held
      with its score, every earlier event scored strictly less, and no later
      one scored more. */
  predicate HoldsFirstBest(q: string, events: seq<EventType>, n: nat, best: Option<EventType>, bestScore: real, k: int)
    requires n <= |events|
  {
    if k < 0 then
      best.None? && bestScore == 0.0 && forall j :: 0 <= j < n ==> Score(q, events[j]) <= 0.0
    else
      && k < n
      && best == Some(events[k])
      && bestScore == Score(q, events[k])
      && bestScore > 0.0
      && (forall j :: 0 <= j < k ==> Score(q, events[j]) < bestScore)
      && (forall j :: k < j < n ==> Score(q, events[j]) <= bestScore)
  }

  /** One step of the scan keeps the candidate unless the event's better
      score is strictly greater. */
  lemma ScanStep(q: string, e: EventType, best: Option<EventType>, bestScore: real)
    requires !IsExact(q, e) && bestScore >= 0.0
    ensures Consider(q, e, best, bestScore)
            == if Score(q, e) > bestScore then (Some(e), Score(q, e)) else (best, bestScore)
  {
    DenominatorsPositive(q, e);
  }

  /** Past an event that is not an exact match, the scan goes on with the
      candidate that event leaves. */
  lemma ScanUnfold(q: string, events: seq<EventType>, i: nat, best: Option<EventType>, bestScore: real)
    requires i < |events| && !IsExact(q, events[i])
    ensures var next := Consider(q, events[i], best, bestScore);
            ScanFrom(q, events, i, best, bestScore) == ScanFrom(q, events, i + 1, next.0, next.1)
  {
  }

  /** Considering one more event keeps the first-best invariant, moving the
      candidate to that event exactly when it scores strictly higher. */
  lemma HoldsAfterStep(q: string, events: seq<EventType>, i: nat, best: Option<EventType>, bestScore: real, k0: int)
    requires i < |events| && !IsExact(q, events[i])
    requires HoldsFirstBest(q, events, i, best, bestScore, k0)
    ensures var next := Consider(q, events[i], best, bestScore);
            HoldsFirstBest(q, events, i + 1, next.0, next.1, if Score(q, events[i]) > bestScore then i else k0)
  {
    ScanStep(q, events[i], best, bestScore);
  }

  lemma {:induction false} ScanFindsFirstBest(q: string, events: seq<EventType>, i: nat, best: Option<EventType>,
                                              bestScore: real, k0: int) returns (k: int)
    requires i <= |events|
    requires forall j :: i <= j < |events| ==> !IsExact(q, events[j])
    requires HoldsFirstBest(q, events, i, best, bestScore, k0)
    ensures ScanFrom(q, events, i, best, bestScore).Best?
    ensures var s := ScanFrom(q, events, i, best, bestScore);
            HoldsFirstBest(q, events, |events|, s.best, s.score, k)
    decreases |events| - i
  {
    if i == |events| {
      k := k0;
    } else {
      var next := Consider(q, events[i], best, bestScore);
      HoldsAfterStep(q, events, i, best, bestScore, k0);
      ScanUnfold(q, events, i, best, bestScore);
      k := ScanFindsFirstBest(q, events, i + 1, next.0, next.1, if Score(q, events[i]) > bestScore then i else k0);
    }
  }

  /** `events[k]` is the first event with the greatest positive score. */
  predicate IsFirstBest(q: string, events: seq<EventType>, k: int) {
    && 0 <= k < |events|
    && Score(q, events[k]) > 0.0
    && (forall j :: 0 <= j < k ==> Score(q, events[j]) < Score(q, events[k]))
    && (forall j :: k < j < |events| ==> Score(q, events[j]) <= Score(q, events[k]))
  }

  /** With no exact match in the catalog, the fuzzy pass returns the first
      event with the greatest positive score, so the earliest wins ties and a
      zero score never selects; when nothing scores above zero the result is
      `NO_MATCH` listing every event in order (or none unless the reply's
      status is "success"). */
  lemma BestMatchIsFirstHighestScore(eventName: string, response: CatalogResponse)
    requires Usable(response)
    requires forall j :: 0 <= j < |response.data.value| ==> !IsExact(Query(eventName), response.data.value[j])
    ensures var q := Query(eventName);
            var events := response.data.value;
            var r := ResolveEvent(eventName, response);
            && (forall k :: IsFirstBest(q, events, k) ==>
                  r == Ok(Outcome(Success, FoundMatch, "Found the best match", Event(RefOf(events[k])))))
            && ((forall j :: 0 <= j < |events| ==> Score(q, events[j]) <= 0.0) && response.status.Some? ==>
                  r == Ok(Outcome(Error, NoMatch, "No matching event found for '" + eventName + "'",
                                  Events(if response.status.value == "success" then RefsOf(events) else []))))
            && ((forall j :: 0 <= j < |events| ==> Score(q, events[j]) <= 0.0) && response.status.None? ==>
                  r == Raise(KeyError("status")))
  {
    var q := Query(eventName);
    var events := response.data.value;
    var k := ScanFindsFirstBest(q, events, 0, None, 0.0, -1);
    var s := ScanFrom(q, events, 0, None, 0.0);
    forall k' | IsFirstBest(q, events, k')
      ensures ResolveEvent(eventName, response)
              == Ok(Outcome(Success, FoundMatch, "Found the best match", Event(RefOf(events[k']))))
    {
      assert k == k';
    }
  }

  // ---------------------------------------------------------------------
  // Bookings
  // ---------------------------------------------------------------------

  /** No zone database is consulted when no zone name is given. */
  const NoZones: ZoneRules := (name: string, t: DateTime) => None

  /** How both the requested start and each booking's start are normalised
      before comparison: `convert_to_utc_format` with no user time zone. */
  const NormaliseStart: string -> Exec<string> := s => ConvertToUtcFormat(s, None, NoZones)

  /** `booking_name_lower == title` and the booking's start, normalised,
      equals the requested normalised start. A start that cannot be
      normalised never matches. */
  predicate BookingMatches(normalise: string -> Exec<string>, q: string, startUtc: string, b: ProviderBooking) {
    Lower(b.title.GetOr("")) == q && normalise(b.start.GetOr("")) == Ok(startUtc)
  }

  /** The booking loop from index `i`: the first match, skipping any booking
      whose start fails to normalise. */
  function FirstBookingMatch(normalise: string -> Exec<string>, q: string, startUtc: string,
                             bookings: seq<ProviderBooking>, i: nat): Option<ProviderBooking>
    requires i <= |bookings|
    decreases |bookings| - i
  {
    if i == |bookings| then None
    else
      var b := bookings[i];
      match normalise(b.start.GetOr(""))
      case Raise(_) => FirstBookingMatch(normalise, q, startUtc, bookings, i + 1)
      case Ok(bookingStart) =>
        if q == Lower(b.title.GetOr("")) && startUtc == bookingStart then Some(b)
        else FirstBookingMatch(normalise, q, startUtc, bookings, i + 1)
  }

  function FoundRef(b: ProviderBooking): BookingRef {
    BookingRef(b.uid, b.id, b.title, b.start, b.end)
  }

  function SummaryOf(b: ProviderBooking): BookingSummary {
    BookingSummary(b.uid, b.title, b.start, b.end)
  }

  function SummariesOf(bookings: seq<ProviderBooking>): (s: seq<BookingSummary>)
    ensures |s| == |bookings|
    ensures forall i :: 0 <= i < |bookings| ==> s[i] == SummaryOf(bookings[i])
  {
    seq(|bookings|, i requires 0 <= i < |bookings| => SummaryOf(bookings[i]))
  }

  /** The part of `find_booking_uid_by_name_and_datetime` after the bookings
      request, given the already normalised requested start. */
  function ResolveBooking(bookingName: string, datetimeStart: string, startUtc: string, response: BookingsResponse): (r: Exec<Outcome>)
    ensures response.error.Some? ==>
              r == Ok(Outcome(Error, CalcomApiRequestFailed, ApiFailedMessage, ErrorText(response.error.value)))
    ensures response.error.None? && response.status == Some("error") ==>
              r == Ok(Outcome(Error, CalcomApiRequestFailed, ApiFailedMessage, RawBookings(response)))
    ensures response.error.None? && response.status != Some("error") && response.data.None? ==>
              r == Ok(Outcome(Error, UnexpectedResponseFormat, UnexpectedFormatMessage, RawBookings(response)))
    ensures r.Ok? ==> r.value.code in {CalcomApiRequestFailed, UnexpectedResponseFormat, FoundMatch, BookingNotFound}
    ensures r.Ok? ==> (r.value.status == Success <==> r.value.code == FoundMatch)
    ensures r.Ok? && r.value.code == FoundMatch ==> r.value.data.FoundBooking?
    ensures r.Ok? ==> Consistent(r.value)
    ensures r.Raise? ==> r == Raise(KeyError("status")) && response.status.None? && response.data.Some?
  {
    if response.error.Some? then
      Ok(Outcome(Error, CalcomApiRequestFailed, ApiFailedMessage, ErrorText(response.error.value)))
    else if response.status == Some("error") then
      Ok(Outcome(Error, CalcomApiRequestFailed, ApiFailedMessage, RawBookings(response)))
    else if response.data.None? then
      Ok(Outcome(Error, UnexpectedResponseFormat, UnexpectedFormatMessage, RawBookings(response)))
    else
      var bookings := response.data.value;
      match FirstBookingMatch(NormaliseStart, Query(bookingName), startUtc, bookings, 0)
      case Some(b) => Ok(Outcome(Success, FoundMatch, "Found exact match for booking", FoundBooking(FoundRef(b))))
      case None =>
        match response.status
        case None => Raise(KeyError("status"))
        case Some(st) =>
          var alternatives := if st == "success" then SummariesOf(bookings) else [];
          Ok(Outcome(Error, BookingNotFound,
                     "No matching booking found for '" + bookingName + "' at " + datetimeStart,
                     Summaries(alternatives)))
  }

  /** The bookings request `find_booking_uid_by_name_and_datetime` issues. */
  function UpcomingBookingsCall(userEmail: string): Call {
    ListBookings(userEmail, "upcoming")
  }

  /** `find_booking_uid_by_name_and_datetime`: normalise the requested start
      (raising before any request if it cannot be parsed), list the user's
      upcoming bookings, then resolve. */
  function FindBookingUidByNameAndDatetime(userEmail: string, bookingName: string, datetimeStart: string,
                                           response: BookingsResponse): (r: Run)
    ensures ConvertToUtcFormat(datetimeStart, None, NoZones).Raise? ==>
              r.result.Raise? && r.result.exc.ValueError? && r.calls == []
    ensures ConvertToUtcFormat(datetimeStart, None, NoZones).Ok? ==>
              r.calls == [UpcomingBookingsCall(userEmail)]
              && r.result == ResolveBooking(bookingName, datetimeStart,
                                            ConvertToUtcFormat(datetimeStart, None, NoZones).value, response)
    ensures r.delays == []
    ensures r.result.Ok? ==> (r.result.value.status == Success <==> r.result.value.code == FoundMatch)
    ensures r.result.Ok? && r.result.value.status == Success ==> r.result.value.data.FoundBooking?
    ensures r.result.Ok? ==> Consistent(r.result.value)
  {
    match ConvertToUtcFormat(datetimeStart, None, NoZones)
    case Raise(e) => Run(Raise(e), [], [])
    case Ok(startUtc) =>
      Run(ResolveBooking(bookingName, datetimeStart, startUtc, response), [UpcomingBookingsCall(userEmail)], [])
  }

  // ---------------------------------------------------------------------
  // Properties of the booking lookup
  // ---------------------------------------------------------------------

  /** `bookings[k]` is the first booking matching title and UTC start. */
  predicate IsFirstBookingMatch(normalise: string -> Exec<string>, q: string, startUtc: string, bookings: seq<ProviderBooking>, k: int) {
    && 0 <= k < |bookings|
    && BookingMatches(normalise, q, startUtc, bookings[k])
    && forall j :: 0 <= j < k ==> !BookingMatches(normalise, q, startUtc, bookings[j])
  }

  /** One iteration of the booking loop decides by `BookingMatches`. */
  lemma FirstBookingMatchStep(normalise: string -> Exec<string>, q: string, startUtc: string, bookings: seq<ProviderBooking>, i: nat)
    requires i < |bookings|
    ensures FirstBookingMatch(normalise, q, startUtc, bookings, i)
            == if BookingMatches(normalise, q, startUtc, bookings[i]) then Some(bookings[i])
               else FirstBookingMatch(normalise, q, startUtc, bookings, i + 1)
  {
  }

  /** The booking loop returns the first booking (from `i` on) that
      `BookingMatches`, at index `k`, and nothing when none does. */
  lemma {:induction false} FirstBookingMatchSpec(normalise: string -> Exec<string>, q: string, startUtc: string, bookings: seq<ProviderBooking>, i: nat)
    returns (k: int)
    requires i <= |bookings|
    ensures FirstBookingMatch(normalise, q, startUtc, bookings, i).None? <==>
              forall j :: i <= j < |bookings| ==> !BookingMatches(normalise, q, startUtc, bookings[j])
    ensures FirstBookingMatch(normalise, q, startUtc, bookings, i).Some? ==>
              && i <= k < |bookings|
              && FirstBookingMatch(normalise, q, startUtc, bookings, i) == Some(bookings[k])
              && BookingMatches(normalise, q, startUtc, bookings[k])
              && forall j :: i <= j < k ==> !BookingMatches(normalise, q, startUtc, bookings[j])
    decreases |bookings| - i
  {
    if i == |bookings| {
      k := -1;
    } else {
      var k1 := FirstBookingMatchSpec(normalise, q, startUtc, bookings, i + 1);
      FirstBookingMatchStep(normalise, q, startUtc, bookings, i);
      k := if BookingMatches(normalise, q, startUtc, bookings[i]) then i else k1;
    }
  }

  /** A booking is found exactly when some booking's lowercased title equals
      the normalised name and its start denotes the same UTC instant; the
      first such booking in provider order is the one returned. Bookings whose
      start cannot be parsed are skipped, never fatal. */
  lemma BookingLookupIsExact(bookingName: string, datetimeStart: string, startUtc: string, response: BookingsResponse)
    requires response.error.None? && response.status != Some("error") && response.data.Some?
    ensures var q := Query(bookingName);
            var bookings := response.data.value;
            var r := ResolveBooking(bookingName, datetimeStart, startUtc, response);
            && (forall k :: IsFirstBookingMatch(NormaliseStart, q, startUtc, bookings, k) ==>
                  r == Ok(Outcome(Success, FoundMatch, "Found exact match for booking", FoundBooking(FoundRef(bookings[k])))))
            && ((forall j :: 0 <= j < |bookings| ==> !BookingMatches(NormaliseStart, q, startUtc, bookings[j])) && response.status.Some? ==>
                  r == Ok(Outcome(Error, BookingNotFound,
                                  "No matching booking found for '" + bookingName + "' at " + datetimeStart,
                                  Summaries(if response.status.value == "success" then SummariesOf(bookings) else []))))
            && ((forall j :: 0 <= j < |bookings| ==> !BookingMatches(NormaliseStart, q, startUtc, bookings[j])) && response.status.None? ==>
                  r == Raise(KeyError("status")))
  {
    var q := Query(bookingName);
    var bookings := response.data.value;
    var found := FirstBookingMatchSpec(NormaliseStart, q, startUtc, bookings, 0);
    forall k | IsFirstBookingMatch(NormaliseStart, q, startUtc, bookings, k)
      ensures FirstBookingMatch(NormaliseStart, q, startUtc, bookings, 0) == Some(bookings[k])
    {
      assert found == k;
    }
  }
}
