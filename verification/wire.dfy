/** How the back end's outcomes reach the front end: the JSON the Flask
    handler in `backend/main.py` sends for each tool call, as the formatters
    receive it after parsing. A key the provider omitted is absent; a key the
    core fills with `.get` is present and `null` when the value is missing. */
module Wire {
  import opened Common
  import opened Outcomes
  import opened JsValues
  import opened Text

  function NullableStr(o: Option<string>): Json {
    if o.Some? then JStr(o.value) else JNull
  }

  function NullableInt(o: Option<int>): Json {
    if o.Some? then JNum(o.value) else JNull
  }

  /** A key present only when it has a value. */
  function OptField(key: string, v: Option<Json>): seq<Field> {
    if v.Some? then [Field(key, v.value)] else []
  }

  function StrOpt(o: Option<string>): Option<Json> {
    if o.Some? then Some(JStr(o.value)) else None
  }

  function IntOpt(o: Option<int>): Option<Json> {
    if o.Some? then Some(JNum(o.value)) else None
  }

  function AttendeeJson(a: Attendee): Json {
    JObj(OptField("name", StrOpt(a.name)) + OptField("email", StrOpt(a.email)))
  }

  function AttendeesJson(attendees: seq<Attendee>): Json {
    JArr(seq(|attendees|, i requires 0 <= i < |attendees| => AttendeeJson(attendees[i])))
  }

  function ProviderBookingJson(b: ProviderBooking): Json {
    JObj(OptField("uid", StrOpt(b.uid)) + OptField("id", IntOpt(b.id)) + OptField("title", StrOpt(b.title))
         + OptField("start", StrOpt(b.start)) + OptField("end", StrOpt(b.end))
         + OptField("startTime", StrOpt(b.startTime)) + OptField("endTime", StrOpt(b.endTime))
         + OptField("status", StrOpt(b.status))
         + OptField("attendees", if b.attendees.Some? then Some(AttendeesJson(b.attendees.value)) else None))
  }

  function ResponseJson<D>(r: Response<D>, encode: D -> Json): Json {
    JObj(OptField("error", StrOpt(r.error)) + OptField("status", StrOpt(r.status))
         + OptField("message", StrOpt(r.message))
         + OptField("data", if r.data.Some? then Some(encode(r.data.value)) else None))
  }

  /** The `message` a reply carries reaches the front end as is, and reads
      as `undefined` when the provider sent none. */
  lemma ResponseMessage<D>(r: Response<D>, encode: D -> Json)
    ensures Get(ResponseJson(r, encode), "message") == if r.message.Some? then JStr(r.message.value) else JUndefined
  {
    var front := OptField("error", StrOpt(r.error)) + OptField("status", StrOpt(r.status));
    var back := OptField("message", StrOpt(r.message)) + OptField("data", if r.data.Some? then Some(encode(r.data.value)) else None);
    assert ResponseJson(r, encode).fields == front + back;
    LookupSkip(front, back, "message");
  }

  function EventTypeJson(e: EventType): Json {
    JObj([Field("id", JNum(e.id)), Field("title", JStr(e.title)), Field("slug", JStr(e.slug))])
  }

  function EventTypesJson(events: seq<EventType>): Json {
    JArr(seq(|events|, i requires 0 <= i < |events| => EventTypeJson(events[i])))
  }

  function BookingsJson(bookings: seq<ProviderBooking>): Json {
    JArr(seq(|bookings|, i requires 0 <= i < |bookings| => ProviderBookingJson(bookings[i])))
  }

  function SlotJson(s: Slot): Json {
    JObj([Field("start", JStr(s.start))])
  }

  function SlotsJson(slots: seq<Slot>): Json {
    JArr(seq(|slots|, i requires 0 <= i < |slots| => SlotJson(slots[i])))
  }

  /** Dates in ascending order. */
  predicate SortedByDate(days: seq<DaySlots>) {
    forall i, j :: 0 <= i < j < |days| ==> StrLe(days[i].date, days[j].date)
  }

  /** One day placed into a list before the first day with a greater or
      equal date. */
  function InsertByDate(d: DaySlots, sorted: seq<DaySlots>): (r: seq<DaySlots>)
    ensures multiset(r) == multiset(sorted) + multiset{d}
    decreases |sorted|
  {
    if |sorted| == 0 then [d]
    else if StrLe(d.date, sorted[0].date) then
      assert sorted == [sorted[0]] + sorted[1..];
      [d] + sorted
    else
      assert sorted == [sorted[0]] + sorted[1..];
      [sorted[0]] + InsertByDate(d, sorted[1..])
  }

  /** Inserting into an ascending list keeps it ascending. */
  lemma {:induction false} InsertKeepsOrder(d: DaySlots, sorted: seq<DaySlots>)
    requires SortedByDate(sorted)
    ensures SortedByDate(InsertByDate(d, sorted))
    decreases |sorted|
  {
    if |sorted| == 0 {
    } else if StrLe(d.date, sorted[0].date) {
      forall j | 0 < j < |sorted| ensures StrLe(d.date, sorted[j].date) {
        StrLeTrans(d.date, sorted[0].date, sorted[j].date);
      }
      AscendingAfter(d, sorted);
    } else {
      var rest := InsertByDate(d, sorted[1..]);
      InsertKeepsOrder(d, sorted[1..]);
      StrLeTotal(d.date, sorted[0].date);
      forall j | 0 <= j < |rest| ensures StrLe(sorted[0].date, rest[j].date) {
        assert rest[j] in multiset(rest);
        if rest[j] != d {
          assert rest[j] in multiset(sorted[1..]);
          var k :| 0 <= k < |sorted[1..]| && sorted[1..][k] == rest[j];
          assert sorted[k + 1] == rest[j];
        }
      }
      AscendingAfter(sorted[0], rest);
    }
  }

  /** A day no later than every day of an ascending list can open it. */
  lemma AscendingAfter(d: DaySlots, sorted: seq<DaySlots>)
    requires SortedByDate(sorted)
    requires forall j :: 0 <= j < |sorted| ==> StrLe(d.date, sorted[j].date)
    ensures SortedByDate([d] + sorted)
  {
    var r := [d] + sorted;
    forall i, j | 0 <= i < j < |r| ensures StrLe(r[i].date, r[j].date) {
      if i == 0 {
        assert r[j] == sorted[j - 1];
      } else {
        assert r[i] == sorted[i - 1] && r[j] == sorted[j - 1];
      }
    }
  }

  /** The days ordered by date: the same days, ascending. */
  function SortByDate(days: seq<DaySlots>): (r: seq<DaySlots>)
    ensures SortedByDate(r)
    ensures multiset(r) == multiset(days)
    decreases |days|
  {
    if |days| == 0 then []
    else
      assert days == [days[0]] + days[1..];
      var rest := SortByDate(days[1..]);
      InsertKeepsOrder(days[0], rest);
      InsertByDate(days[0], rest)
  }

  /** The slots object: one key per date. `jsonify` sorts an object's keys,
      so the dates arrive in ascending order whatever the reply's order. */
  function DaysJson(days: seq<DaySlots>): Json {
    var sorted := SortByDate(days);
    JObj(seq(|sorted|, i requires 0 <= i < |sorted| => Field(sorted[i].date, SlotsJson(sorted[i].slots))))
  }

  function EventRefJson(e: EventRef): Json {
    JObj([Field("title", JStr(e.title)), Field("slug", JStr(e.slug)), Field("id", JNum(e.id))])
  }

  function BookingRefJson(b: BookingRef): Json {
    JObj([Field("uid", NullableStr(b.uid)), Field("id", NullableInt(b.id)), Field("title", NullableStr(b.title)),
          Field("startTime", NullableStr(b.startTime)), Field("endTime", NullableStr(b.endTime))])
  }

  function InfoJson(b: BookingInfo): Json {
    JObj([Field("uid", NullableStr(b.uid)), Field("id", NullableInt(b.id)), Field("title", NullableStr(b.title)),
          Field("startTime", NullableStr(b.startTime)), Field("endTime", NullableStr(b.endTime)),
          Field("status", NullableStr(b.status)), Field("attendees", AttendeesJson(b.attendees))])
  }

  function SummaryJson(b: BookingSummary): Json {
    JObj([Field("uid", NullableStr(b.uid)), Field("title", NullableStr(b.title)),
          Field("startTime", NullableStr(b.startTime)), Field("endTime", NullableStr(b.endTime))])
  }

  function DataJson(d: Data): Json {
    match d
    case ErrorText(text) => JStr(text)
    case RawCatalog(reply) => ResponseJson(reply, EventTypesJson)
    case RawBookings(reply) => ResponseJson(reply, BookingsJson)
    case Event(e) => EventRefJson(e)
    case Events(es) => JArr(seq(|es|, i requires 0 <= i < |es| => EventRefJson(es[i])))
    case Slots(days) => DaysJson(days)
    case Created(b) => ProviderBookingJson(b)
    case Bookings(infos) => JArr(seq(|infos|, i requires 0 <= i < |infos| => InfoJson(infos[i])))
    case FoundBooking(b) => BookingRefJson(b)
    case Summaries(ss) => JArr(seq(|ss|, i requires 0 <= i < |ss| => SummaryJson(ss[i])))
    case Cancelled(b, reply) =>
      JObj([Field("cancelled_booking", BookingRefJson(b)),
            Field("cancellation_response", ResponseJson(reply, ProviderBookingJson))])
    case CancelFailed(b, reply) =>
      JObj([Field("found_booking", BookingRefJson(b)),
            Field("cancellation_error", ResponseJson(reply, ProviderBookingJson))])
    case CancelRaised(b, message) =>
      JObj([Field("found_booking", BookingRefJson(b)), Field("exception", JStr(message))])
  }

  /** `function_return(...)`: `{status, result: {code, message, data}}`. */
  function OutcomeJson(o: Outcome): Json {
    JObj([Field("status", JStr(o.status.Wire())),
          Field("result", JObj([Field("code", JStr(o.code.Wire())), Field("message", JStr(o.message)),
                                Field("data", DataJson(o.data))]))])
  }

  /** One element of `tool_results`: `{tool, args, result}`. */
  function ToolResultJson(tool: string, args: Json, o: Outcome): Json {
    JObj([Field("tool", JStr(tool)), Field("args", args), Field("result", OutcomeJson(o))])
  }

  /** The element sent for a tool name the dispatcher does not know. */
  function UnknownToolJson(tool: string, args: Json): Json {
    JObj([Field("tool", JStr(tool)), Field("args", args), Field("error", JStr("Unknown tool: " + tool))])
  }
}
