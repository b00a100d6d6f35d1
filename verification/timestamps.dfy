/** The time normaliser of `backend/utils/datetime.py`: parsing an ISO 8601
    date-time (the subset described in section 5.6 of RFC 3339), shifting it to
    UTC, and printing it back in the two fixed formats the provider expects.

    Civil arithmetic is integer-only. An instant's meaning is its `Epoch`, a
    count of seconds from 0001-01-01T00:00:00 in the proleptic Gregorian
    calendar; the UTC shift is proved to subtract exactly the UTC offset. */
module Timestamps {
  import opened Common
  import Text

  /** A wall-clock date and time, second precision. */
  datatype DateTime = DateTime(year: int, month: int, day: int, hour: int, minute: int, second: int)

  /** A parsed input: its wall-clock fields and, when the text carried one, its
      UTC offset in seconds east of Greenwich (`Z` is offset 0). */
  datatype Stamp = Stamp(local: DateTime, offset: Option<int>)

  /** The `{start, end}` pair `get_day_range_utc` returns. */
  datatype DayWindow = DayWindow(start: string, end: string)

  /** A named time-zone database: the UTC offset, in seconds, that a zone name
      gives a naive local time, or `None` for a name the database does not know. */
  type ZoneRules = (string, DateTime) -> Option<int>

  const SecondsPerDay: int := 86400
  const MinYear: int := 1
  const MaxYear: int := 9999

  /** The suffix every `convert_to_utc_format` result ends with. */
  const MillisZulu: string := ".000Z"

  predicate IsLeapYear(y: int) {
    y % 4 == 0 && (y % 100 != 0 || y % 400 == 0)
  }

  function DaysInMonth(y: int, m: int): int {
    if m == 2 then (if IsLeapYear(y) then 29 else 28)
    else if m == 4 || m == 6 || m == 9 || m == 11 then 30
    else 31
  }

  function YearLength(y: int): int {
    if IsLeapYear(y) then 366 else 365
  }

  /** Month, day and clock fields in range; the year is unconstrained. */
  predicate ValidClock(t: DateTime) {
    && 1 <= t.month <= 12
    && 1 <= t.day <= DaysInMonth(t.year, t.month)
    && 0 <= t.hour < 24
    && 0 <= t.minute < 60
    && 0 <= t.second < 60
  }

  /** The years Python's `datetime` can represent. */
  predicate InYearRange(t: DateTime) {
    MinYear <= t.year <= MaxYear
  }

  predicate Valid(t: DateTime) {
    ValidClock(t) && InYearRange(t)
  }

  // ---------------------------------------------------------------------
  // Civil arithmetic and its meaning
  // ---------------------------------------------------------------------

  ghost function DaysBeforeYear(y: int): int
    decreases if y >= 1 then y - 1 else 1 - y
  {
    if y == 1 then 0
    else if y > 1 then DaysBeforeYear(y - 1) + YearLength(y - 1)
    else DaysBeforeYear(y + 1) - YearLength(y)
  }

  ghost function DaysBeforeMonth(y: int, m: int): int
    requires 1 <= m <= 12
  {
    var common :=
      if m == 1 then 0 else if m == 2 then 31 else if m == 3 then 59
      else if m == 4 then 90 else if m == 5 then 120 else if m == 6 then 151
      else if m == 7 then 181 else if m == 8 then 212 else if m == 9 then 243
      else if m == 10 then 273 else if m == 11 then 304 else 334;
    common + (if m > 2 && IsLeapYear(y) then 1 else 0)
  }

  /** Days from 0001-01-01 to the date of `t`. */
  ghost function DayNumber(t: DateTime): int
    requires 1 <= t.month <= 12
  {
    DaysBeforeYear(t.year) + DaysBeforeMonth(t.year, t.month) + t.day - 1
  }

  function SecondOfDay(t: DateTime): int {
    t.hour * 3600 + t.minute * 60 + t.second
  }

  /** Seconds from 0001-01-01T00:00:00 to `t`, read as a UTC wall clock. */
  ghost function Epoch(t: DateTime): int
    requires 1 <= t.month <= 12
  {
    DayNumber(t) * SecondsPerDay + SecondOfDay(t)
  }

  function NextDate(t: DateTime): DateTime {
    if t.day < DaysInMonth(t.year, t.month) then t.(day := t.day + 1)
    else if t.month < 12 then t.(month := t.month + 1, day := 1)
    else t.(year := t.year + 1, month := 1, day := 1)
  }

  function PrevDate(t: DateTime): DateTime {
    if t.day > 1 then t.(day := t.day - 1)
    else if t.month > 1 then t.(month := t.month - 1, day := DaysInMonth(t.year, t.month - 1))
    else t.(year := t.year - 1, month := 12, day := 31)
  }

  lemma NextDateIsOneDayLater(t: DateTime)
    requires ValidClock(t)
    ensures ValidClock(NextDate(t)) && DayNumber(NextDate(t)) == DayNumber(t) + 1
  {
    if t.day == DaysInMonth(t.year, t.month) && t.month == 12 {
      assert DaysBeforeYear(t.year + 1) == DaysBeforeYear(t.year) + YearLength(t.year);
    }
  }

  lemma PrevDateIsOneDayEarlier(t: DateTime)
    requires ValidClock(t)
    ensures ValidClock(PrevDate(t)) && DayNumber(PrevDate(t)) == DayNumber(t) - 1
  {
    if t.day == 1 && t.month == 1 {
      assert DaysBeforeYear(t.year) == DaysBeforeYear(t.year - 1) + YearLength(t.year - 1);
    }
  }

  lemma SplitSecondOfDay(s: int)
    requires 0 <= s < SecondsPerDay
    ensures 0 <= s / 3600 < 24 && 0 <= (s % 3600) / 60 < 60 && 0 <= s % 60 < 60
    ensures (s / 3600) * 3600 + ((s % 3600) / 60) * 60 + s % 60 == s
  {
    var h := s / 3600;
    var r := s % 3600;
    assert s == h * 3600 + r;
    assert r == (r / 60) * 60 + r % 60;
    assert r % 60 == s % 60 by {
      assert s == (h * 60 + r / 60) * 60 + r % 60;
    }
  }

  /** Shifts a wall-clock time at `offset` seconds east of UTC to UTC. Because
      Python requires every offset to lie strictly within one day, the date
      moves by at most one day. */
  function ToUtc(t: DateTime, offset: int): (r: DateTime)
    requires ValidClock(t) && -SecondsPerDay < offset < SecondsPerDay
    ensures ValidClock(r)
    ensures Epoch(r) == Epoch(t) - offset
    ensures t.year - 1 <= r.year <= t.year + 1
  {
    var s := SecondOfDay(t) - offset;
    var d := if s < 0 then PrevDate(t) else if s >= SecondsPerDay then NextDate(t) else t;
    var sod := if s < 0 then s + SecondsPerDay else if s >= SecondsPerDay then s - SecondsPerDay else s;
    NextDateIsOneDayLater(t);
    PrevDateIsOneDayEarlier(t);
    SplitSecondOfDay(sod);
    DateTime(d.year, d.month, d.day, sod / 3600, (sod % 3600) / 60, sod % 60)
  }

  // ---------------------------------------------------------------------
  // Text form
  // ---------------------------------------------------------------------

  predicate IsDigit(c: char) {
    '0' <= c <= '9'
  }

  predicate AllDigits(s: string) {
    forall i :: 0 <= i < |s| ==> IsDigit(s[i])
  }

  function DigitsValue(s: string): nat
    requires AllDigits(s)
    decreases |s|
  {
    if |s| == 0 then 0
    else DigitsValue(s[..|s| - 1]) * 10 + (s[|s| - 1] as int - '0' as int)
  }

  function Pow10(w: nat): nat {
    if w == 0 then 1 else 10 * Pow10(w - 1)
  }

  /** `n` printed in exactly `w` digits with leading zeros (strftime's `%Y`,
      `%m`, `%d`, `%H`, `%M`, `%S`); reading the digits back gives `n`
      whenever `n` fits. */
  function Pad(n: nat, w: nat): (r: string)
    ensures |r| == w && AllDigits(r)
    ensures n < Pow10(w) ==> DigitsValue(r) == n
    decreases w
  {
    if w == 0 then ""
    else
      var r := Pad(n / 10, w - 1) + [Text.DigitChar(n % 10)];
      assert r[..|r| - 1] == Pad(n / 10, w - 1);
      r
  }

  /** Number of leading decimal digits of `s`. */
  function LeadingDigits(s: string): (k: nat)
    ensures k <= |s|
    decreases |s|
  {
    if |s| > 0 && IsDigit(s[0]) then 1 + LeadingDigits(s[1..]) else 0
  }

  /** The zone designator after the seconds: nothing (naive), `Z`, or
      `+HH:MM` / `-HH:MM`; `Some(None)` is a naive time. */
  function ParseZone(z: string): (r: Option<Option<int>>)
    ensures r.Some? && r.value.Some? ==> -SecondsPerDay < r.value.value < SecondsPerDay
  {
    if z == "" then Some(None)
    else if z == "Z" then Some(Some(0))
    else if |z| == 6 && (z[0] == '+' || z[0] == '-') && z[3] == ':'
            && AllDigits(z[1..3]) && AllDigits(z[4..6])
            && DigitsValue(z[1..3]) <= 23 && DigitsValue(z[4..6]) <= 59 then
      var magnitude := DigitsValue(z[1..3]) * 3600 + DigitsValue(z[4..6]) * 60;
      Some(Some(if z[0] == '-' then -magnitude else magnitude))
    else None
  }

  /** Everything after the seconds field: an optional fraction `.d+`, which
      is read and then dropped, and the zone designator. */
  function ParseSuffix(rest: string): Option<Option<int>> {
    if |rest| > 0 && rest[0] == '.' then
      var k := LeadingDigits(rest[1..]);
      if k == 0 then None else ParseZone(rest[1 + k..])
    else ParseZone(rest)
  }

  /** Reads `YYYY-MM-DDTHH:MM:SS[.fraction][Z|+HH:MM|-HH:MM]`; `None` for any
      text outside that form or naming an impossible date or time. */
  function Parse(s: string): (r: Option<Stamp>)
    ensures r.Some? ==> Valid(r.value.local)
    ensures r.Some? && r.value.offset.Some? ==> -SecondsPerDay < r.value.offset.value < SecondsPerDay
  {
    if |s| < 19 || s[4] != '-' || s[7] != '-' || s[10] != 'T' || s[13] != ':' || s[16] != ':' then None
    else if !(AllDigits(s[0..4]) && AllDigits(s[5..7]) && AllDigits(s[8..10])
              && AllDigits(s[11..13]) && AllDigits(s[14..16]) && AllDigits(s[17..19])) then None
    else
      var t := DateTime(DigitsValue(s[0..4]), DigitsValue(s[5..7]), DigitsValue(s[8..10]),
                        DigitsValue(s[11..13]), DigitsValue(s[14..16]), DigitsValue(s[17..19]));
      if !Valid(t) then None
      else
        match ParseSuffix(s[19..])
        case None => None
        case Some(zone) => Some(Stamp(t, zone))
  }

  /** `%Y-%m-%d` */
  function FormatDate(t: DateTime): (r: string)
    requires Valid(t)
    ensures |r| == 10
  {
    Pad(t.year, 4) + "-" + Pad(t.month, 2) + "-" + Pad(t.day, 2)
  }

  /** `%H:%M:%S` */
  function FormatClock(t: DateTime): (r: string)
    requires Valid(t)
    ensures |r| == 8
  {
    Pad(t.hour, 2) + ":" + Pad(t.minute, 2) + ":" + Pad(t.second, 2)
  }

  /** Where the pieces of `a + sep + b + sep + c` sit: the layout shared by
      `%Y-%m-%d` and `%H:%M:%S`. */
  lemma ThreeFields(a: string, sep: string, b: string, c: string)
    requires |sep| == 1
    ensures var s := a + sep + b + sep + c;
            && |s| == |a| + |b| + |c| + 2
            && s[..|a|] == a && s[|a|] == sep[0]
            && s[|a| + 1..|a| + 1 + |b|] == b && s[|a| + 1 + |b|] == sep[0]
            && s[|a| + 2 + |b|..] == c
  {
    var s := a + sep + b + sep + c;
    assert s == a + (sep + (b + (sep + c)));
  }

  /** Where the date, the `T`, the clock and the suffix sit in a printed
      date-time. */
  lemma DateTimeFields(date: string, clock: string, suffix: string)
    requires |date| == 10 && |clock| == 8
    ensures var s := date + "T" + clock + suffix;
            && |s| == 19 + |suffix|
            && s[..10] == date && s[10] == 'T' && s[11..19] == clock && s[19..] == suffix
  {
    var s := date + "T" + clock + suffix;
    assert s == date + ("T" + (clock + suffix));
  }

  /** A slice of a slice is a slice of the whole. */
  lemma SliceOfSlice(s: string, i: nat, j: nat, k: nat, l: nat)
    requires i <= j <= |s| && k <= l <= j - i
    ensures s[i..j][k..l] == s[i + k..i + l]
  {
    assert forall m :: 0 <= m < l - k ==> s[i..j][k..l][m] == s[i + k..i + l][m];
  }

  /** `%Y-%m-%dT%H:%M:%S.000Z`, the only shape `convert_to_utc_format` emits. */
  function FormatUtcMillis(t: DateTime): (r: string)
    requires Valid(t)
    ensures |r| == 24 && r[10] == 'T' && r[19..] == MillisZulu
  {
    DateTimeFields(FormatDate(t), FormatClock(t), MillisZulu);
    FormatDate(t) + "T" + FormatClock(t) + MillisZulu
  }

  lemma FormatUtcMillisDate(t: DateTime)
    requires Valid(t)
    ensures FormatUtcMillis(t)[..10] == FormatDate(t)
  {
    DateTimeFields(FormatDate(t), FormatClock(t), MillisZulu);
  }

  /** A text laid out as `YYYY-MM-DDTHH:MM:SS` followed by a UTC suffix,
      whose digit fields read as a valid time, parses to that time in UTC. */
  lemma ParseLaidOut(s: string, t: DateTime, suffix: string)
    requires Valid(t) && ParseSuffix(suffix) == Some(Some(0))
    requires |s| >= 19 && s[4] == '-' && s[7] == '-' && s[10] == 'T' && s[13] == ':' && s[16] == ':'
    requires AllDigits(s[0..4]) && AllDigits(s[5..7]) && AllDigits(s[8..10])
    requires AllDigits(s[11..13]) && AllDigits(s[14..16]) && AllDigits(s[17..19])
    requires DigitsValue(s[0..4]) == t.year && DigitsValue(s[5..7]) == t.month && DigitsValue(s[8..10]) == t.day
    requires DigitsValue(s[11..13]) == t.hour && DigitsValue(s[14..16]) == t.minute && DigitsValue(s[17..19]) == t.second
    requires s[19..] == suffix
    ensures Parse(s) == Some(Stamp(t, Some(0)))
  {
  }

  /** `Pad` prints a field that reads back as itself. */
  lemma PadReads(n: nat, w: nat)
    requires w == 4 ==> n < 10000
    requires w == 2 ==> n < 100
    requires w == 2 || w == 4
    ensures AllDigits(Pad(n, w)) && DigitsValue(Pad(n, w)) == n
  {
    assert Pow10(2) == 100;
    assert Pow10(4) == 10000;
  }

  /** Printing a valid time and reading it back gives the same wall clock, for
      any suffix that reads as UTC: the round trip every later comparison of
      normalised strings rests on. */
  lemma ParseFormatted(t: DateTime, suffix: string)
    requires Valid(t) && ParseSuffix(suffix) == Some(Some(0))
    ensures Parse(FormatDate(t) + "T" + FormatClock(t) + suffix) == Some(Stamp(t, Some(0)))
  {
    var date, clock := FormatDate(t), FormatClock(t);
    var s := date + "T" + clock + suffix;
    var y, mo, d := Pad(t.year, 4), Pad(t.month, 2), Pad(t.day, 2);
    var h, mi, se := Pad(t.hour, 2), Pad(t.minute, 2), Pad(t.second, 2);
    PadReads(t.year, 4);
    PadReads(t.month, 2);
    PadReads(t.day, 2);
    PadReads(t.hour, 2);
    PadReads(t.minute, 2);
    PadReads(t.second, 2);
    LayOut(s, date, clock, suffix, y, mo, d, h, mi, se);
    ParseLaidOut(s, t, suffix);
  }

  /** Where each field of a printed date-time sits. */
  lemma LayOut(s: string, date: string, clock: string, suffix: string,
               y: string, mo: string, d: string, h: string, mi: string, se: string)
    requires |y| == 4 && |mo| == 2 && |d| == 2 && |h| == 2 && |mi| == 2 && |se| == 2
    requires date == y + "-" + mo + "-" + d && clock == h + ":" + mi + ":" + se
    requires s == date + "T" + clock + suffix
    ensures |s| >= 19 && s[4] == '-' && s[7] == '-' && s[10] == 'T' && s[13] == ':' && s[16] == ':'
    ensures s[0..4] == y && s[5..7] == mo && s[8..10] == d
    ensures s[11..13] == h && s[14..16] == mi && s[17..19] == se && s[19..] == suffix
  {
    ThreeFields(y, "-", mo, d);
    ThreeFields(h, ":", mi, se);
    DateTimeFields(date, clock, suffix);
    SliceOfSlice(s, 0, 10, 0, 4);
    SliceOfSlice(s, 0, 10, 5, 7);
    SliceOfSlice(s, 0, 10, 8, 10);
    SliceOfSlice(s, 11, 19, 0, 2);
    SliceOfSlice(s, 11, 19, 3, 5);
    SliceOfSlice(s, 11, 19, 6, 8);
    assert s[4] == s[..10][4] && s[7] == s[..10][7];
    assert s[13] == s[11..19][2] && s[16] == s[11..19][5];
  }

  lemma MillisZuluIsUtc()
    ensures ParseSuffix(MillisZulu) == Some(Some(0))
  {
    assert MillisZulu[1..] == "000Z";
    assert LeadingDigits("Z") == 0;
    assert LeadingDigits("0Z") == 1 by { assert "0Z"[1..] == "Z"; }
    assert LeadingDigits("00Z") == 2 by { assert "00Z"[1..] == "0Z"; }
    assert LeadingDigits("000Z") == 3 by { assert "000Z"[1..] == "00Z"; }
    assert MillisZulu[1 + 3..] == "Z";
  }

  // ---------------------------------------------------------------------
  // The two public operations
  // ---------------------------------------------------------------------

  function ParseError(s: string): Exception {
    ValueError("Error parsing datetime string '" + s + "'")
  }

  /** The offset `convert_to_utc_format` applies: the text's own offset; else
      the user's zone's offset for that wall-clock time; else 0 (naive input
      with no zone is already UTC). `None` when the zone name is unknown or
      the zone's offset is not strictly within one day. */
  function AppliedOffset(st: Stamp, userTimezone: Option<string>, zones: ZoneRules): (r: Option<int>)
    requires st.offset.Some? ==> -SecondsPerDay < st.offset.value < SecondsPerDay
    ensures r.Some? ==> -SecondsPerDay < r.value < SecondsPerDay
  {
    match st.offset
    case Some(o) => Some(o)
    case None =>
      if userTimezone.Some? && userTimezone.value != "" then
        match zones(userTimezone.value, st.local)
        case None => None
        case Some(o) => if -SecondsPerDay < o < SecondsPerDay then Some(o) else None
      else Some(0)
  }

  /** `convert_to_utc_format(datetime_string, user_timezone)`. */
  function ConvertToUtcFormat(s: string, userTimezone: Option<string>, zones: ZoneRules): (r: Exec<string>)
    ensures Parse(s).None? ==> r == Raise(ParseError(s))
    ensures r.Raise? ==> r.exc.ValueError?
    ensures r.Ok? ==> |r.value| == 24 && r.value[10] == 'T' && r.value[19..] == MillisZulu
  {
    match Parse(s)
    case None => Raise(ParseError(s))
    case Some(st) =>
      match AppliedOffset(st, userTimezone, zones)
      case None => Raise(ParseError(s))
      case Some(off) =>
        var u := ToUtc(st.local, off);
        if InYearRange(u) then Ok(FormatUtcMillis(u)) else Raise(ParseError(s))
  }

  /** `get_day_range_utc(datetime_string)`: the first and last second of the
      UTC calendar day holding the instant. There is no zone fallback: a naive
      input is read as UTC. */
  function GetDayRangeUtc(s: string): (r: Exec<DayWindow>)
    ensures Parse(s).None? ==> r == Raise(ParseError(s))
    ensures r.Raise? ==> r.exc.ValueError?
    ensures r.Ok? ==> |r.value.start| == 20 && r.value.start[10..] == "T00:00:00Z"
    ensures r.Ok? ==> |r.value.end| == 20 && r.value.end[10..] == "T23:59:59Z"
    ensures r.Ok? ==> r.value.start[..10] == r.value.end[..10]
  {
    match Parse(s)
    case None => Raise(ParseError(s))
    case Some(st) =>
      var u := ToUtc(st.local, st.offset.GetOr(0));
      if InYearRange(u) then
        var date := FormatDate(u);
        Ok(DayWindow(date + "T00:00:00Z", date + "T23:59:59Z"))
      else Raise(ParseError(s))
  }

  // ---------------------------------------------------------------------
  // Properties of the public operations
  // ---------------------------------------------------------------------

  /** Shifting by a zero offset changes nothing. */
  lemma ToUtcZero(t: DateTime)
    requires ValidClock(t)
    ensures ToUtc(t, 0) == t
  {
    var s := SecondOfDay(t);
    assert s / 3600 == t.hour;
    assert s % 3600 == t.minute * 60 + t.second;
    assert (s % 3600) / 60 == t.minute;
    assert s % 60 == t.second;
  }

  /** What `convert_to_utc_format` means: its output reads back as a UTC time
      denoting the same instant as the input. An input with an offset is
      shifted by that offset; a naive input with a user zone is shifted by the
      offset the zone gives that wall-clock time; a naive input with no zone
      (or an empty zone name) is taken as UTC unchanged. */
  lemma ConvertToUtcFormatMeaning(s: string, userTimezone: Option<string>, zones: ZoneRules)
    requires ConvertToUtcFormat(s, userTimezone, zones).Ok?
    ensures Parse(s).Some?
    ensures var u := ConvertToUtcFormat(s, userTimezone, zones).value;
            var local := Parse(s).value.local;
            && Parse(u).Some? && Parse(u).value.offset == Some(0)
            && (Parse(s).value.offset.Some? ==>
                  Epoch(Parse(u).value.local) == Epoch(local) - Parse(s).value.offset.value)
            && (Parse(s).value.offset.None? && userTimezone.Some? && userTimezone.value != "" ==>
                  && zones(userTimezone.value, local).Some?
                  && Epoch(Parse(u).value.local) == Epoch(local) - zones(userTimezone.value, local).value)
            && (Parse(s).value.offset.None? && (userTimezone.None? || userTimezone.value == "") ==>
                  Parse(u).value.local == local)
  {
    ConvertedReadsBack(s, userTimezone, zones);
    var st := Parse(s).value;
    var off := AppliedOffset(st, userTimezone, zones).value;
    if off == 0 {
      ToUtcZero(st.local);
    }
  }

  /** The converted text reads back as the shifted wall clock, in UTC. */
  lemma ConvertedReadsBack(s: string, userTimezone: Option<string>, zones: ZoneRules)
    requires ConvertToUtcFormat(s, userTimezone, zones).Ok?
    ensures Parse(s).Some? && AppliedOffset(Parse(s).value, userTimezone, zones).Some?
    ensures var st := Parse(s).value;
            Parse(ConvertToUtcFormat(s, userTimezone, zones).value)
            == Some(Stamp(ToUtc(st.local, AppliedOffset(st, userTimezone, zones).value), Some(0)))
  {
    var st := Parse(s).value;
    var utc := ToUtc(st.local, AppliedOffset(st, userTimezone, zones).value);
    assert ConvertToUtcFormat(s, userTimezone, zones) == Ok(FormatUtcMillis(utc));
    MillisZuluIsUtc();
    ParseFormatted(utc, MillisZulu);
  }

  /** Normalising an already normalised string returns it unchanged, whatever
      zone is supplied the second time: the output carries `Z`, so the zone
      fallback never applies. Equality of normalised strings is therefore
      equality of instants. */
  lemma ConvertToUtcFormatIdempotent(s: string, userTimezone: Option<string>, zones: ZoneRules,
                                     userTimezone2: Option<string>, zones2: ZoneRules)
    requires ConvertToUtcFormat(s, userTimezone, zones).Ok?
    ensures var u := ConvertToUtcFormat(s, userTimezone, zones).value;
            ConvertToUtcFormat(u, userTimezone2, zones2) == Ok(u)
  {
    ConvertedReadsBack(s, userTimezone, zones);
    var st := Parse(s).value;
    var utc := ToUtc(st.local, AppliedOffset(st, userTimezone, zones).value);
    var u := FormatUtcMillis(utc);
    assert ConvertToUtcFormat(s, userTimezone, zones) == Ok(u);
    assert AppliedOffset(Stamp(utc, Some(0)), userTimezone2, zones2) == Some(0);
    ToUtcZero(utc);
  }

  /** The instant named by the text, in UTC, with no zone fallback. */
  function InstantAsUtc(s: string): Option<DateTime> {
    match Parse(s)
    case None => None
    case Some(st) => Some(ToUtc(st.local, st.offset.GetOr(0)))
  }

  lemma PadZeros()
    ensures Pad(0, 2) == "00"
  {
    assert Pad(0, 0) == "";
    assert Pad(0, 1) == "0";
  }

  predicate NoT(s: string) {
    forall i :: 0 <= i < |s| ==> s[i] != 'T'
  }

  lemma NoTConcat(a: string, b: string)
    requires NoT(a) && NoT(b)
    ensures NoT(a + b)
  {
    forall i | 0 <= i < |a + b| ensures (a + b)[i] != 'T' {
      if i >= |a| { assert (a + b)[i] == b[i - |a|]; }
    }
  }

  lemma DigitsHaveNoT(s: string)
    requires AllDigits(s)
    ensures NoT(s)
  {
    forall i | 0 <= i < |s| ensures s[i] != 'T' {
      assert IsDigit(s[i]);
    }
  }

  lemma FormatDateHasNoT(t: DateTime)
    requires Valid(t)
    ensures NoT(FormatDate(t))
  {
    var y, m, d := Pad(t.year, 4), Pad(t.month, 2), Pad(t.day, 2);
    var dash := "-";
    assert NoT(dash);
    DigitsHaveNoT(y);
    DigitsHaveNoT(m);
    DigitsHaveNoT(d);
    NoTConcat(y, dash);
    NoTConcat(y + dash, m);
    NoTConcat(y + dash + m, dash);
    NoTConcat(y + dash + m + dash, d);
  }

  /** A two-digit field printed by `Pad`. */
  lemma PadTwo(n: nat)
    requires n < 100
    ensures Pad(n, 2) == [Text.DigitChar(n / 10), Text.DigitChar(n % 10)]
  {
    assert Pad(n / 10, 1) == Pad(n / 10 / 10, 0) + [Text.DigitChar(n / 10 % 10)];
  }

  /** The clock faces of the two bounds of a day window. */
  lemma BoundClocks(utc: DateTime)
    requires Valid(utc)
    ensures FormatClock(utc.(hour := 0, minute := 0, second := 0)) == "00:00:00"
    ensures FormatClock(utc.(hour := 23, minute := 59, second := 59)) == "23:59:59"
  {
    PadTwo(0);
    PadTwo(23);
    PadTwo(59);
  }

  /** The two bounds of a day window are valid times. */
  lemma BoundsValid(utc: DateTime)
    requires Valid(utc)
    ensures Valid(utc.(hour := 0, minute := 0, second := 0))
    ensures Valid(utc.(hour := 23, minute := 59, second := 59))
  {
  }

  /** The two bounds' texts after the date. */
  lemma BoundTexts()
    ensures "T" + "00:00:00" + "Z" == "T00:00:00Z"
    ensures "T" + "23:59:59" + "Z" == "T23:59:59Z"
  {
  }

  /** Printing the date at a fixed clock face and reading it back gives that
      wall clock in UTC. */
  lemma BoundParses(utc: DateTime, hour: int, minute: int, second: int, face: string, text: string)
    requires Valid(utc) && Valid(utc.(hour := hour, minute := minute, second := second))
    requires FormatClock(utc.(hour := hour, minute := minute, second := second)) == face
    requires "T" + face + "Z" == text
    ensures Parse(FormatDate(utc) + text) == Some(Stamp(utc.(hour := hour, minute := minute, second := second), Some(0)))
  {
    var at := utc.(hour := hour, minute := minute, second := second);
    assert FormatDate(at) == FormatDate(utc);
    assert ParseSuffix("Z") == Some(Some(0));
    ParseFormatted(at, "Z");
    Text.Regroup(FormatDate(at), "T", face, "Z");
  }

  /** The two bounds of the day window read back as midnight and 23:59:59 UTC
      on the date of `utc`. */
  lemma WindowBoundsParse(utc: DateTime)
    requires Valid(utc)
    ensures Parse(FormatDate(utc) + "T00:00:00Z") == Some(Stamp(utc.(hour := 0, minute := 0, second := 0), Some(0)))
    ensures Parse(FormatDate(utc) + "T23:59:59Z") == Some(Stamp(utc.(hour := 23, minute := 59, second := 59), Some(0)))
  {
    BoundsValid(utc);
    BoundClocks(utc);
    BoundTexts();
    BoundParses(utc, 0, 0, 0, "00:00:00", "T00:00:00Z");
    BoundParses(utc, 23, 59, 59, "23:59:59", "T23:59:59Z");
  }

  /** `get_day_range_utc` agrees with `convert_to_utc_format` without a zone:
      both fail or both succeed, and the window is the UTC date of the
      normalised instant at 00:00:00 and at 23:59:59. */
  lemma DayRangeMatchesConvert(s: string, zones: ZoneRules)
    ensures GetDayRangeUtc(s).Ok? <==> ConvertToUtcFormat(s, None, zones).Ok?
    ensures GetDayRangeUtc(s).Ok? ==>
      var u := ConvertToUtcFormat(s, None, zones).value;
      GetDayRangeUtc(s).value == DayWindow(u[..10] + "T00:00:00Z", u[..10] + "T23:59:59Z")
  {
    if Parse(s).Some? {
      var st := Parse(s).value;
      var utc := ToUtc(st.local, st.offset.GetOr(0));
      if InYearRange(utc) {
        assert AppliedOffset(st, None, zones) == Some(st.offset.GetOr(0));
        assert ConvertToUtcFormat(s, None, zones) == Ok(FormatUtcMillis(utc));
        FormatUtcMillisDate(utc);
      }
    }
  }

  /** Read back, the two bounds of the day window fall on the UTC date of the
      instant, exactly one day less a second apart, and bracket it. */
  lemma DayRangeBracketsInstant(s: string, zones: ZoneRules)
    requires GetDayRangeUtc(s).Ok?
    ensures var w := GetDayRangeUtc(s).value;
      && InstantAsUtc(s).Some?
      && Parse(w.start).Some? && Parse(w.end).Some?
      && var t := InstantAsUtc(s).value;
         var lo := Parse(w.start).value.local;
         var hi := Parse(w.end).value.local;
         && Parse(w.start).value.offset == Some(0) && Parse(w.end).value.offset == Some(0)
         && (lo.year, lo.month, lo.day) == (t.year, t.month, t.day)
         && (hi.year, hi.month, hi.day) == (t.year, t.month, t.day)
         && lo.hour == lo.minute == lo.second == 0
         && Epoch(lo) <= Epoch(t) <= Epoch(hi)
         && Epoch(hi) - Epoch(lo) == SecondsPerDay - 1
  {
    var st := Parse(s).value;
    var utc := ToUtc(st.local, st.offset.GetOr(0));
    var lo := utc.(hour := 0, minute := 0, second := 0);
    var hi := utc.(hour := 23, minute := 59, second := 59);
    WindowBoundsParse(utc);
    DayBoundsEpochs(utc);
  }

  /** Midnight and the last second of a valid instant's date bracket it and
      lie one day less a second apart. */
  lemma DayBoundsEpochs(utc: DateTime)
    requires ValidClock(utc)
    ensures var lo := utc.(hour := 0, minute := 0, second := 0);
            var hi := utc.(hour := 23, minute := 59, second := 59);
            && Epoch(lo) <= Epoch(utc) <= Epoch(hi)
            && Epoch(hi) - Epoch(lo) == SecondsPerDay - 1
  {
    var lo := utc.(hour := 0, minute := 0, second := 0);
    var hi := utc.(hour := 23, minute := 59, second := 59);
    var d := DaysBeforeYear(utc.year) + DaysBeforeMonth(utc.year, utc.month) + utc.day - 1;
    assert DayNumber(lo) == d;
    assert DayNumber(hi) == d;
    assert DayNumber(utc) == d;
  }

  /** The window computed from a normalised start is always available (the
      call at create time cannot raise), and the slot key taken from its
      `start` by `split("T")[0]` is the date part of the normalised start. */
  lemma DayRangeOfNormalised(s: string, userTimezone: Option<string>, zones: ZoneRules)
    requires ConvertToUtcFormat(s, userTimezone, zones).Ok?
    ensures var u := ConvertToUtcFormat(s, userTimezone, zones).value;
            && GetDayRangeUtc(u) == Ok(DayWindow(u[..10] + "T00:00:00Z", u[..10] + "T23:59:59Z"))
            && Text.BeforeFirst(u[..10] + "T00:00:00Z", 'T') == u[..10]
  {
    var u := ConvertToUtcFormat(s, userTimezone, zones).value;
    ConvertToUtcFormatIdempotent(s, userTimezone, zones, None, zones);
    DayRangeMatchesConvert(u, zones);
    var st := Parse(s).value;
    var utc := ToUtc(st.local, AppliedOffset(st, userTimezone, zones).value);
    FormatUtcMillisDate(utc);
    FormatDateHasNoT(utc);
    Text.BeforeFirstPrefix(u[..10], "T00:00:00Z", 'T');
  }
}
