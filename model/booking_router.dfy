/**
 * The public booking endpoints of the backend: the hourly slots of a day and
 * their availability, and the confirmation of a booking by one-time code.
 * Datetimes are naive and counted in seconds since the epoch; the database
 * tables are objects passed in.
 */
module BookingRouter {
  import opened Wrappers
  import opened Text
  import opened Dates
  import opened Otp

  const SecondsPerHour: int := 3600
  const SecondsPerDay: int := 24 * SecondsPerHour

  /** The first and one past the last opening hour (`range(9, 17)`). */
  const OpeningHour: int := 9
  const ClosingHour: int := 17

  /** A row of the `booking` table. */
  datatype BookingRow = BookingRow(id: int, name: string, contact: string, service: string, datetime: int, status: string)

  datatype TimeSlot = TimeSlot(startTime: int, endTime: int, available: bool)

  /* ---------------- datetime.strptime(date, "%Y-%m-%d") ---------------- */

  /** A month as `%m` matches it: `1[0-2]`, `0[1-9]` or `[1-9]`. */
  predicate MonthText(t: string) {
    || (|t| == 2 && ((t[0] == '1' && '0' <= t[1] <= '2') || (t[0] == '0' && '1' <= t[1] <= '9')))
    || (|t| == 1 && '1' <= t[0] <= '9')
  }

  /**
   * A day as `%d` matches the whole rest of the string: `3[01]`, `[12]\d`,
   * `0[1-9]`, `[1-9]` or a space then `[1-9]`. The two-character
   * alternatives are tried first and text left after the match is an error,
   * so a longer rest is never a day.
   */
  predicate DayText(t: string) {
    || (|t| == 2 && (|| (t[0] == '3' && '0' <= t[1] <= '1')
                     || ('1' <= t[0] <= '2' && IsDigit(t[1]))
                     || (t[0] == '0' && '1' <= t[1] <= '9')
                     || (t[0] == ' ' && '1' <= t[1] <= '9')))
    || (|t| == 1 && '1' <= t[0] <= '9')
  }

  /** `int(t)` of a month or day text, which ignores a leading space. */
  function TextValue(t: string): nat
    requires MonthText(t) || DayText(t)
  {
    if t[0] == ' ' then DigitsValue(t[1..]) else DigitsValue(t)
  }

  /**
   * The year, month and day that the pattern of `%Y-%m-%d` reads from `s`, or
   * `None` when it does not match or leaves text over. The year is exactly
   * four digits and the month runs to the second dash; no other split of `s`
   * can match.
   */
  function StrptimeFields(s: string): (r: Option<(int, int, int)>)
    ensures r.Some? ==> 1 <= r.value.1 <= 12 && 1 <= r.value.2 <= 31
  {
    if |s| < 7 || !AllDigits(s[..4]) || s[4] != '-' then None
    else
      var j := if s[6] == '-' then 6 else 7;
      if j < |s| && s[j] == '-' && MonthText(s[5..j]) && DayText(s[j + 1..]) then
        MonthTextValue(s[5..j]);
        DayTextValue(s[j + 1..]);
        Some((DigitsValue(s[..4]), TextValue(s[5..j]), TextValue(s[j + 1..])))
      else None
  }

  /**
   * `datetime.strptime(s, "%Y-%m-%d")` as a day number, `None` where it raises
   * ValueError: no match, text left over, year 0, or a day past the end of
   * its month.
   */
  function Strptime(s: string): Option<int> {
    match StrptimeFields(s)
    case None => None
    case Some((y, m, d)) => if 1 <= y && d <= DaysInMonth(y, m) then Some(DayNumber(y, m, d)) else None
  }

  /** The last day `datetime` can hold, 9999-12-31: the day after it overflows. */
  const LastDay: int := 2932896

  lemma LastDayIsDecember31Of9999()
    ensures DayNumber(9999, 12, 31) == LastDay
  {
  }

  lemma TwoDigitsValue(t: string)
    requires |t| == 2 && AllDigits(t)
    ensures DigitsValue(t) == 10 * Digit(t[0]) + Digit(t[1])
  {
    OneDigitValue(t[..1]);
  }

  /** A zero-padded `YYYY-MM-DD` date of a year from 1 on reads the same as in the browser. */
  lemma StrptimeReadsPaddedDates(s: string)
    requires ParseDate(s).Some? && DigitsValue(s[..4]) >= 1
    ensures Strptime(s) == ParseDate(s)
  {
    var month, day := s[5..7], s[8..];
    TwoDigitsValue(month);
    TwoDigitsValue(day);
    assert MonthText(month) && DayText(day) by {
      DaysInMonthAtMost31(DigitsValue(s[..4]), DigitsValue(month));
    }
  }

  lemma DaysInMonthAtMost31(y: int, m: int)
    requires 1 <= m <= 12
    ensures DaysInMonth(y, m) <= 31
  {
  }

  function Digit(c: char): int { c as int - '0' as int }

  lemma OneDigitValue(t: string)
    requires |t| == 1 && AllDigits(t)
    ensures DigitsValue(t) == Digit(t[0])
  {
    assert t[..0] == [];
  }

  lemma FourDigitsValue(t: string)
    requires |t| == 4 && AllDigits(t)
    ensures DigitsValue(t) == 1000 * Digit(t[0]) + 100 * Digit(t[1]) + 10 * Digit(t[2]) + Digit(t[3])
  {
    OneDigitValue(t[..1]);
    assert t[..2][..1] == t[..1];
    assert DigitsValue(t[..2]) == 10 * Digit(t[0]) + Digit(t[1]);
    assert t[..3][..2] == t[..2];
    assert DigitsValue(t[..3]) == 100 * Digit(t[0]) + 10 * Digit(t[1]) + Digit(t[2]);
    assert t[..3] == t[..|t| - 1];
  }

  lemma MonthTextValue(t: string)
    requires MonthText(t)
    ensures 1 <= TextValue(t) <= 12
  {
    if |t| == 2 {
      TwoDigitsValue(t);
    } else {
      OneDigitValue(t);
    }
  }

  lemma DayTextValue(t: string)
    requires DayText(t)
    ensures 1 <= TextValue(t) <= 31
  {
    if |t| == 1 {
      OneDigitValue(t);
    } else if t[0] == ' ' {
      OneDigitValue(t[1..]);
    } else {
      TwoDigitsValue(t);
    }
  }

  /** Year 0 is a valid date in the browser but makes `strptime` raise. */
  lemma YearZeroRejected()
    ensures ParseDate("0000-01-01").Some?
    ensures Strptime("0000-01-01").None?
  {
    var s := "0000-01-01";
    FourDigitsValue(s[..4]);
    TwoDigitsValue(s[5..7]);
    TwoDigitsValue(s[8..]);
  }

  /** Months and days without their leading zero are read as well. */
  lemma UnpaddedDateAccepted()
    ensures Strptime("2024-3-5") == Some(DayNumber(2024, 3, 5))
  {
    var s := "2024-3-5";
    FourDigitsValue(s[..4]);
    OneDigitValue(s[5..6]);
    OneDigitValue(s[7..]);
  }

  /** A day may also be written as a space and one digit. */
  lemma SpacedDayAccepted()
    ensures Strptime("2024-03- 5") == Some(DayNumber(2024, 3, 5))
  {
    var u := "2024-03- 5";
    FourDigitsValue(u[..4]);
    TwoDigitsValue(u[5..7]);
    assert u[8..][1..] == "5";
    OneDigitValue(u[8..][1..]);
  }

  /** The last day `datetime` holds reads as `LastDay`. */
  lemma LastDayReads()
    ensures Strptime("9999-12-31") == Some(LastDay)
  {
    LastDayFields();
    LastDayIsDecember31Of9999();
  }

  lemma LastDayFields()
    ensures StrptimeFields("9999-12-31") == Some((9999, 12, 31))
  {
    var s := "9999-12-31";
    FourDigitsValue(s[..4]);
    TwoDigitsValue(s[5..7]);
    TwoDigitsValue(s[8..]);
  }

  /* ---------------- available slots ---------------- */

  /** `dt.time()`, as seconds since midnight. */
  function TimeOfDay(t: int): (s: int)
    ensures 0 <= s < SecondsPerDay
  {
    t % SecondsPerDay
  }

  /** `base <= datetime < base + timedelta(days=1)`. */
  predicate OnDay(b: BookingRow, base: int) {
    base <= b.datetime < base + SecondsPerDay
  }

  /** `booked_times`: the times of day of the bookings on the day starting at `base`. */
  function BookedTimes(bookings: seq<BookingRow>, base: int): set<int> {
    set b | b in bookings && OnDay(b, base) :: TimeOfDay(b.datetime)
  }

  /** The slot that starts at `hour` o'clock of the day starting at `base`. */
  function SlotAt(base: int, hour: int, booked: set<int>): TimeSlot {
    var start := base + hour * SecondsPerHour;
    TimeSlot(start, start + SecondsPerHour, TimeOfDay(start) !in booked)
  }

  /** The slots from `OpeningHour` up to `hour`, exclusive. */
  function SlotsUpTo(base: int, hour: int, booked: set<int>): seq<TimeSlot>
    requires OpeningHour <= hour
    decreases hour - OpeningHour
  {
    if hour == OpeningHour then [] else SlotsUpTo(base, hour - 1, booked) + [SlotAt(base, hour - 1, booked)]
  }

  /** The slots of the day numbered `day`. */
  function Slots(day: int, booked: set<int>): seq<TimeSlot> {
    SlotsUpTo(day * SecondsPerDay, ClosingHour, booked)
  }

  /** `get_available_slots(date)` over the rows of the `booking` table. */
  method GetAvailableSlots(date: string, bookings: seq<BookingRow>) returns (r: Result<seq<TimeSlot>, PyError>)
    ensures Strptime(date).None? <==> r == Err(ValueError)
    ensures r == Err(OverflowError) <==> Strptime(date).Some? && Strptime(date).value >= LastDay
    ensures Strptime(date).Some? && Strptime(date).value < LastDay ==>
      r == Ok(Slots(Strptime(date).value, BookedTimes(bookings, Strptime(date).value * SecondsPerDay)))
  {
    var day := Strptime(date);
    if day.None? {
      return Err(ValueError);
    }
    var baseDate := day.value * SecondsPerDay;
    if day.value + 1 > LastDay {
      // `base_date + timedelta(days=1)` passes `datetime.max`
      return Err(OverflowError);
    }
    var bookedTimes := BookedTimes(bookings, baseDate);
    var slots := HourlySlots(day.value, bookedTimes);
    return Ok(slots);
  }

  /** The loop of `get_available_slots`: one slot per opening hour, free unless its time is booked. */
  method HourlySlots(day: int, bookedTimes: set<int>) returns (slots: seq<TimeSlot>)
    ensures slots == Slots(day, bookedTimes)
  {
    var baseDate := day * SecondsPerDay;
    slots := [];
    for hour := OpeningHour to ClosingHour
      invariant slots == SlotsUpTo(baseDate, hour, bookedTimes)
    {
      var startTime := baseDate + hour * SecondsPerHour;
      var endTime := startTime + SecondsPerHour;
      var isAvailable := TimeOfDay(startTime) !in bookedTimes;
      slots := slots + [TimeSlot(startTime, endTime, isAvailable)];
    }
  }

  lemma {:induction false} SlotsUpToAt(base: int, hour: int, booked: set<int>)
    requires OpeningHour <= hour
    ensures |SlotsUpTo(base, hour, booked)| == hour - OpeningHour
    ensures forall k :: 0 <= k < hour - OpeningHour ==> SlotsUpTo(base, hour, booked)[k] == SlotAt(base, OpeningHour + k, booked)
    decreases hour - OpeningHour
  {
    if hour > OpeningHour {
      SlotsUpToAt(base, hour - 1, booked);
    }
  }

  lemma TimeOfDayWithin(day: int, x: int)
    requires 0 <= x < SecondsPerDay
    ensures TimeOfDay(day * SecondsPerDay + x) == x
  {
  }

  /** The slot at `hour` is free exactly when no booking on the table is at its start. */
  lemma SlotFreeIffUnbooked(day: int, bookings: seq<BookingRow>, hour: int)
    requires 0 <= hour < 24
    ensures var slot := SlotAt(day * SecondsPerDay, hour, BookedTimes(bookings, day * SecondsPerDay));
      slot.available <==> forall b :: b in bookings ==> b.datetime != slot.startTime
  {
    var base := day * SecondsPerDay;
    var booked := BookedTimes(bookings, base);
    var slot := SlotAt(base, hour, booked);
    TimeOfDayWithin(day, hour * SecondsPerHour);
    if !slot.available {
      var b :| b in bookings && OnDay(b, base) && TimeOfDay(b.datetime) == hour * SecondsPerHour;
      TimeOfDayWithin(day, b.datetime - base);
      assert b.datetime == slot.startTime;
    }
    forall b | b in bookings && b.datetime == slot.startTime
      ensures !slot.available
    {
      assert OnDay(b, base);
      assert TimeOfDay(b.datetime) in booked;
    }
  }

  /**
   * A day has eight one-hour slots, from 9:00 to 16:00 in order, and a slot
   * is free exactly when no booking on the table is at its start.
   */
  lemma SlotsOfDay(day: int, bookings: seq<BookingRow>)
    ensures var slots := Slots(day, BookedTimes(bookings, day * SecondsPerDay));
      && |slots| == ClosingHour - OpeningHour
      && (forall k :: 0 <= k < |slots| ==>
            && slots[k].startTime == day * SecondsPerDay + (OpeningHour + k) * SecondsPerHour
            && slots[k].endTime == slots[k].startTime + SecondsPerHour
            && (slots[k].available <==> forall b :: b in bookings ==> b.datetime != slots[k].startTime))
  {
    var base := day * SecondsPerDay;
    var booked := BookedTimes(bookings, base);
    SlotsUpToAt(base, ClosingHour, booked);
    var slots := Slots(day, booked);
    forall k | 0 <= k < |slots|
      ensures slots[k].available <==> forall b :: b in bookings ==> b.datetime != slots[k].startTime
    {
      SlotFreeIffUnbooked(day, bookings, OpeningHour + k);
    }
  }

  /** Bookings on other days do not change the slots of a day. */
  lemma OtherDaysIrrelevant(day: int, bookings: seq<BookingRow>, others: seq<BookingRow>)
    requires forall b :: b in others ==> !OnDay(b, day * SecondsPerDay)
    ensures BookedTimes(bookings + others, day * SecondsPerDay) == BookedTimes(bookings, day * SecondsPerDay)
  {
  }

  /* ---------------- confirming a booking ---------------- */

  /** The body of `POST /verify-otp`; it has no `datetime` field. */
  datatype OtpRequest = OtpRequest(contact: string, code: string, name: string, service: string,
                                   date: string, time: string, hairArtistId: int)

  datatype Response =
    | Created(bookingId: int)
    | HttpError(status: int, detail: string)
    | Raised(error: PyError)

  const InvalidCode: string := "Invalid or expired OTP"
  const SlotTaken: string := "This time slot is no longer available"

  /** Some booking is at `datetime` already. */
  predicate Taken(rows: seq<BookingRow>, datetime: int) {
    exists j :: 0 <= j < |rows| && rows[j].datetime == datetime
  }

  /** Both tables after a request, and the answer. */
  datatype Outcome = Outcome(otps: seq<OtpRecord>, rows: seq<BookingRow>, response: Response)

  /**
   * `verify_otp_endpoint` as written: once the code verifies (and is spent),
   * reading `otp_request.datetime` raises, so no booking is ever made.
   */
  function EndpointAsWritten(records: seq<OtpRecord>, rows: seq<BookingRow>, request: OtpRequest, now: int): Outcome {
    var (after, ok) := Verify(records, request.contact, request.code, now);
    if !ok then Outcome(after, rows, HttpError(400, InvalidCode))
    else Outcome(after, rows, Raised(AttributeError))
  }

  /**
   * `verify_otp_endpoint` with the slot's datetime `slot` (what the request's
   * date and time denote) in place of the missing field; `nextId` is the id
   * the database hands out next.
   */
  function Endpoint(records: seq<OtpRecord>, rows: seq<BookingRow>, nextId: int,
                    request: OtpRequest, slot: int, now: int): Outcome {
    var (after, ok) := Verify(records, request.contact, request.code, now);
    if !ok then Outcome(after, rows, HttpError(400, InvalidCode))
    else if Taken(rows, slot) then Outcome(after, rows, HttpError(400, SlotTaken))
    else Outcome(after, rows + [BookingRow(nextId, request.name, request.contact, request.service, slot, "confirmed")],
                 Created(nextId))
  }

  /** As written, a request never books, and a code that verifies is spent all the same. */
  lemma AsWrittenNeverBooks(records: seq<OtpRecord>, rows: seq<BookingRow>, request: OtpRequest, now: int)
    ensures var o := EndpointAsWritten(records, rows, request, now);
      && o.rows == rows && !o.response.Created?
      && (o.response == Raised(AttributeError) <==> MatchCount(records, request.contact, request.code, now) > 0)
      && (o.response == Raised(AttributeError) ==>
            MatchCount(o.otps, request.contact, request.code, now) == MatchCount(records, request.contact, request.code, now) - 1)
  {
    VerifyUsesOneRecord(records, request.contact, request.code, now);
  }

  /**
   * A single fresh code: as written the first request raises and the retry is
   * told the code is invalid; the corrected endpoint books the free slot.
   */
  lemma FreshCodeBooksOnlyWhenCorrected(record: OtpRecord, request: OtpRequest, slot: int, now: int)
    requires record.contact == request.contact && record.code == request.code
    requires !record.verified && now < record.expiresAt
    ensures var first := EndpointAsWritten([record], [], request, now);
      && first.response == Raised(AttributeError)
      && EndpointAsWritten(first.otps, first.rows, request, now).response == HttpError(400, InvalidCode)
    ensures Endpoint([record], [], 1, request, slot, now).response == Created(1)
  {
    assert Matches([record][0], request.contact, request.code, now);
    assert MatchCount([record], request.contact, request.code, now) == 1;
    SecondUseFails([record], request.contact, request.code, now, now);
  }

  /** Corrected, a request books exactly when the code verifies and the slot is free, and spends the code even when it is not. */
  lemma EndpointBooksFreeSlots(records: seq<OtpRecord>, rows: seq<BookingRow>, nextId: int,
                               request: OtpRequest, slot: int, now: int)
    ensures var o := Endpoint(records, rows, nextId, request, slot, now);
      && (o.response.Created? <==> MatchCount(records, request.contact, request.code, now) > 0 && !Taken(rows, slot))
      && (o.response.Created? ==> Taken(o.rows, slot) && |o.rows| == |rows| + 1)
      && (!o.response.Created? ==> o.rows == rows)
      && (MatchCount(records, request.contact, request.code, now) > 0 ==>
            MatchCount(o.otps, request.contact, request.code, now) == MatchCount(records, request.contact, request.code, now) - 1)
  {
    VerifyUsesOneRecord(records, request.contact, request.code, now);
    var o := Endpoint(records, rows, nextId, request, slot, now);
    if o.response.Created? {
      assert o.rows[|rows|].datetime == slot;
    }
  }

  /** No two bookings share a datetime. */
  predicate DistinctSlots(rows: seq<BookingRow>) {
    forall i, j :: 0 <= i < j < |rows| ==> rows[i].datetime != rows[j].datetime
  }

  /** The corrected endpoint never double-books a slot. */
  lemma EndpointKeepsSlotsDistinct(records: seq<OtpRecord>, rows: seq<BookingRow>, nextId: int,
                                   request: OtpRequest, slot: int, now: int)
    requires DistinctSlots(rows)
    ensures DistinctSlots(Endpoint(records, rows, nextId, request, slot, now).rows)
  {
    var o := Endpoint(records, rows, nextId, request, slot, now);
    if o.rows != rows {
      forall i | 0 <= i < |rows| ensures o.rows[i].datetime != o.rows[|rows|].datetime {
        assert rows[i].datetime != slot;
      }
    }
  }

  /** `db.query(Booking)`: the `booking` table, with the next id it hands out. */
  class BookingTable {
    var rows: seq<BookingRow>
    var nextId: int

    /** Ids are below `nextId`. */
    predicate Valid()
      reads this
    {
      forall j :: 0 <= j < |rows| ==> rows[j].id < nextId
    }

    constructor()
      ensures rows == [] && Valid()
    {
      rows := [];
      nextId := 1;
    }

    /** `db.add(Booking(...))`, `db.commit()`, `db.refresh(...)`: the new row gets the next id. */
    method Add(name: string, contact: string, service: string, datetime: int, status: string) returns (id: int)
      requires Valid()
      modifies this
      ensures Valid()
      ensures id == old(nextId) && nextId == old(nextId) + 1
      ensures rows == old(rows) + [BookingRow(id, name, contact, service, datetime, status)]
    {
      id := nextId;
      rows := rows + [BookingRow(id, name, contact, service, datetime, status)];
      nextId := nextId + 1;
    }
  }

  /** `verify_otp_endpoint(otp_request)` as written. */
  method VerifyOtpEndpointAsWritten(otps: OtpTable, bookings: BookingTable, request: OtpRequest, now: int)
    returns (response: Response)
    requires otps.Valid() && bookings.Valid()
    modifies otps
    ensures otps.Valid() && otps.nextId == old(otps.nextId)
    ensures Outcome(otps.records, bookings.rows, response)
            == EndpointAsWritten(old(otps.records), old(bookings.rows), request, now)
  {
    var ok := otps.VerifyOtp(request.contact, request.code, now);
    if !ok {
      return HttpError(400, InvalidCode);
    }
    return Raised(AttributeError);
  }

  /** `verify_otp_endpoint(otp_request)` with the slot's datetime `slot`. */
  method VerifyOtpEndpoint(otps: OtpTable, bookings: BookingTable, request: OtpRequest, slot: int, now: int)
    returns (response: Response)
    requires otps.Valid() && bookings.Valid()
    modifies otps, bookings
    ensures otps.Valid() && bookings.Valid() && otps.nextId == old(otps.nextId)
    ensures Outcome(otps.records, bookings.rows, response)
            == Endpoint(old(otps.records), old(bookings.rows), old(bookings.nextId), request, slot, now)
  {
    var ok := otps.VerifyOtp(request.contact, request.code, now);
    if !ok {
      return HttpError(400, InvalidCode);
    }
    var existing := false;
    for j := 0 to |bookings.rows|
      invariant existing <==> Taken(bookings.rows[..j], slot)
    {
      if bookings.rows[j].datetime == slot {
        existing := true;
      }
    }
    assert bookings.rows[..|bookings.rows|] == bookings.rows;
    if existing {
      return HttpError(400, SlotTaken);
    }
    var id := bookings.Add(request.name, request.contact, request.service, slot, "confirmed");
    return Created(id);
  }
}
