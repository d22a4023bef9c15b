/**
 * `appointmentUtils`: the duration of a service, the end time of an
 * appointment, and the conversion of bookings into calendar events coloured
 * by status. A missing list is `None`; a missing string field is `""`.
 */
module AppointmentUtils {
  import opened Wrappers
  import opened Text
  import opened Dates
  import opened Records

  /** The duration, in minutes, used when none can be found. */
  const DefaultDuration: int := 60

  /* ---------------- getServiceDuration ---------------- */

  /** `s.name && s.name.toLowerCase() === serviceName.toLowerCase()`. */
  predicate NameMatches(s: Service, serviceName: string) {
    s.name != "" && Lower(s.name) == Lower(serviceName)
  }

  /** Index of the first service from index `i` on whose name matches, ignoring case. */
  function MatchFrom(services: seq<Service>, serviceName: string, i: nat): (r: Option<nat>)
    requires i <= |services|
    ensures r.Some? ==> i <= r.value < |services| && NameMatches(services[r.value], serviceName)
    ensures r.Some? ==> forall j :: i <= j < r.value ==> !NameMatches(services[j], serviceName)
    ensures r.None? <==> forall j :: i <= j < |services| ==> !NameMatches(services[j], serviceName)
    decreases |services| - i
  {
    if i == |services| then None
    else if NameMatches(services[i], serviceName) then Some(i)
    else MatchFrom(services, serviceName, i + 1)
  }

  /** Index of the first service whose name matches, ignoring case (`services.find`). */
  function FirstMatch(services: seq<Service>, serviceName: string): (r: Option<nat>)
    ensures r.Some? ==> r.value < |services| && NameMatches(services[r.value], serviceName)
    ensures r.Some? ==> forall j :: 0 <= j < r.value ==> !NameMatches(services[j], serviceName)
    ensures r.None? <==> forall j :: 0 <= j < |services| ==> !NameMatches(services[j], serviceName)
  {
    MatchFrom(services, serviceName, 0)
  }

  /** `getServiceDuration(services, serviceName)`, in minutes; it is never falsy. */
  function GetServiceDuration(services: Option<seq<Service>>, serviceName: string): (d: int)
    ensures d != 0
    ensures services.None? || serviceName == "" ==> d == DefaultDuration
    ensures services.Some? && (forall j :: 0 <= j < |services.value| ==> !NameMatches(services.value[j], serviceName))
            ==> d == DefaultDuration
  {
    if services.None? || serviceName == "" then DefaultDuration
    else
      match FirstMatch(services.value, serviceName)
      case None => DefaultDuration
      case Some(i) => if services.value[i].duration != 0 then services.value[i].duration else DefaultDuration
  }

  /** The duration comes from the first service whose name matches, unless that one is 0. */
  lemma DurationOfFirstMatch(services: seq<Service>, serviceName: string, i: nat)
    requires serviceName != "" && i < |services| && NameMatches(services[i], serviceName)
    requires forall j :: 0 <= j < i ==> !NameMatches(services[j], serviceName)
    ensures GetServiceDuration(Some(services), serviceName)
            == if services[i].duration != 0 then services[i].duration else DefaultDuration
  {
    var k := FirstMatch(services, serviceName);
    assert k.Some?;
    assert k.value <= i;
    assert i <= k.value;
  }

  /* ---------------- calculateEndTime ---------------- */

  /**
   * `Number(piece)` for a piece of a time string: the empty string is 0, a
   * run of decimal digits is its value, anything else is `NaN` (`None`).
   */
  function NumberOf(s: string): Option<int> {
    if AllDigits(s) then Some(DigitsValue(s)) else None
  }

  /** `const [hours, minutes] = time.split(':').map(Number)`; a missing piece is `NaN`. */
  function HoursMinutes(time: string): (Option<int>, Option<int>) {
    var pieces := Split(time, ':');
    (NumberOf(pieces[0]), if |pieces| >= 2 then NumberOf(pieces[1]) else None)
  }

  /**
   * `calculateEndTime(date, time, services, serviceName)` as an instant in
   * milliseconds, `None` for `null`. The start is `${date}T${time}:00`; an
   * Invalid Date, at the start or at an end past the time range, makes
   * `toISOString` throw, and that is caught as `null` too.
   */
  function CalculateEndTime(date: string, time: string, services: Option<seq<Service>>, serviceName: string): (r: Option<int>)
    ensures date == "" || time == "" || services.None? || serviceName == "" ==> r.None?
    ensures r.Some? ==> HoursMinutes(time).0.Some? && HoursMinutes(time).1.Some?
    ensures r.Some? ==> InTimeRange(r.value)
  {
    if date == "" || time == "" || services.None? || serviceName == "" then None
    else
      var duration := GetServiceDuration(services, serviceName);
      var (hours, minutes) := HoursMinutes(time);
      if hours.None? || minutes.None? then None
      else
        match DateTimeString(date + "T" + time + ":00")
        case None => None
        case Some(start) =>
          var end := start + duration * MsPerMinute;
          if InTimeRange(end) then Some(end) else None
  }

  /** A valid `HH:mm` time is two digit pairs around one colon. */
  lemma ShortTimeShape(time: string)
    requires |time| == 5 && ParseTime(time).Some?
    ensures time == Join([time[..2], time[3..]], ':')
    ensures AllDigits(time[..2]) && AllDigits(time[3..])
    ensures ':' in time && '.' !in time
  {
    assert time[0..2] == time[..2] && time[3..3 + 2] == time[3..];
    assert Join([time[3..]], ':') == time[3..];
    assert time == time[..2] + [':'] + time[3..];
    forall i | 0 <= i < |time| ensures time[i] != '.' {
      if i < 2 {
        assert time[..2][i] == time[i];
      } else if i > 2 {
        assert time[3..][i - 3] == time[i];
      }
    }
  }

  /** A valid `HH:mm:ss` time holds digits and colons only. */
  lemma LongTimeShape(time: string)
    requires |time| == 8 && ParseTime(time).Some?
    ensures ':' in time && '.' !in time
  {
    assert time[0..2] == time[..2] && time[3..3 + 2] == time[3..5] && time[6..6 + 2] == time[6..];
    forall i | 0 <= i < |time| ensures time[i] != '.' {
      if i < 2 {
        assert time[..2][i] == time[i];
      } else if 2 < i < 5 {
        assert time[3..5][i - 3] == time[i];
      } else if i > 5 {
        assert time[6..][i - 6] == time[i];
      }
    }
  }

  /**
   * For a valid date and `HH:mm` time, the end is the start plus the
   * service's duration when that lies in the time range, and `null` beyond it.
   */
  lemma EndTimeAddsDuration(date: string, time: string, services: seq<Service>, serviceName: string)
    requires ParseDate(date).Some? && |time| == 5 && ParseTime(time).Some? && serviceName != ""
    ensures LocalDateTime(date, time).Some?
    ensures var end := LocalDateTime(date, time).value + GetServiceDuration(Some(services), serviceName) * MsPerMinute;
      && (InTimeRange(end) ==> CalculateEndTime(date, time, Some(services), serviceName) == Some(end))
      && (!InTimeRange(end) ==> CalculateEndTime(date, time, Some(services), serviceName).None?)
  {
    assert HoursMinutes(time).0.Some? && HoursMinutes(time).1.Some? by {
      ShortTimeShape(time);
      SplitJoin([time[..2], time[3..]], ':');
    }
    assert DateTimeString(date + "T" + time + ":00") == LocalDateTime(date, time) by {
      assert date + "T" + time + ":00" == date + "T" + (time + ":00");
      DateTimeOfParts(date, time + ":00");
      SecondsSuffixSameInstant(date, time);
    }
  }

  lemma SampleDateParses()
    ensures ParseDate("2024-03-01").Some?
  {
    var date := "2024-03-01";
    assert date[5..7] == "03" && date[8..] == "01";
    assert "03"[..1] == "0" && "01"[..1] == "0" && "0"[..0] == "";
  }

  lemma SampleTimeParses()
    ensures ParseTime("10:00").Some?
  {
    var time := "10:00";
    assert time[..2] == "10" && time[3..5] == "00";
    assert time[0..2] == "10" && time[3..3 + 2] == "00";
    assert AllDigits("10") && AllDigits("00");
    assert DigitsValue("10") == 10 by {
      assert "10"[..1] == "1" && "1"[..0] == "";
    }
    assert DigitsValue("00") == 0 by {
      assert "00"[..1] == "0" && "0"[..0] == "";
    }
  }

  /** A service of 400 billion minutes ends past the time range, so its end time is `null`. */
  lemma FarEndGivesNull()
    ensures CalculateEndTime("2024-03-01", "10:00", Some([Service(1, "x", 400000000000, None)]), "x").None?
  {
    var services := [Service(1, "x", 400000000000, None)];
    assert GetServiceDuration(Some(services), "x") == 400000000000 by {
      assert NameMatches(services[0], "x");
      assert FirstMatch(services, "x") == Some(0);
    }
    SampleDateParses();
    SampleTimeParses();
    EndTimeAddsDuration("2024-03-01", "10:00", services, "x");
    StartsInTimeRange("2024-03-01", "10:00");
  }

  /** A time that already carries seconds gives `null`: `HH:mm:ss:00` is not a date-time. */
  lemma SecondsGiveNull(date: string, time: string, services: Option<seq<Service>>, serviceName: string)
    requires ParseDate(date).Some? && |time| == 8
    ensures CalculateEndTime(date, time, services, serviceName).None?
  {
    assert date + "T" + time + ":00" == date + "T" + (time + ":00");
    DateTimeOfParts(date, time + ":00");
    SecondsTwiceInvalid(date, time);
  }

  /* ---------------- bookingsToEvents ---------------- */

  /**
   * A calendar event: `id` stands for `booking.id.toString()`, `end` for the
   * ISO string of that instant, and `color` is both the background and the
   * border colour; the rest are the `extendedProps`.
   */
  datatype CalendarEvent = CalendarEvent(
    id: int,
    title: string,
    start: string,
    end: int,
    color: string,
    name: string,
    email: string,
    phone: string,
    service: string,
    status: string,
    duration: int)

  const Green: string := "#4caf50"
  const Orange: string := "#ff9800"
  const Red: string := "#f44336"
  const Blue: string := "#2196f3"

  /** The colour of a status, ignoring case; a missing status is blue. */
  function StatusColor(status: string): (c: string)
    ensures c == Green <==> Lower(status) == "confirmed"
    ensures c == Orange <==> Lower(status) == "pending"
    ensures c == Red <==> Lower(status) == "cancelled"
    ensures c in {Green, Orange, Red, Blue}
  {
    var s := Lower(status);
    if s == "confirmed" then Green
    else if s == "pending" then Orange
    else if s == "cancelled" then Red
    else Blue
  }

  /** `booking.time` without any fractional-seconds suffix (`split('.')[0]`). */
  function TimeString(time: string): (t: string)
    ensures '.' !in t
    ensures '.' !in time ==> t == time
  {
    if '.' in time then BeforeFirst(time, '.') else time
  }

  /** The booking has a date, a time with a colon and a service, so it is not skipped. */
  predicate Convertible(b: Booking) {
    b.date != "" && b.time != "" && b.service != "" && ':' in TimeString(b.time)
  }

  /**
   * The event of one booking: `Ok(None)` when the booking is skipped, and
   * `Err` when the one-hour fallback meets an Invalid Date, whose
   * `toISOString` throws out of `bookingsToEvents`.
   */
  function ToCalendarEvent(b: Booking, services: seq<Service>): (r: Result<Option<CalendarEvent>, JsError>)
    ensures r == Ok(None) <==> !Convertible(b)
    ensures r.Err? <==>
      && Convertible(b)
      && CalculateEndTime(b.date, TimeString(b.time), Some(services), b.service).None?
      && DateTimeString(b.date + "T" + TimeString(b.time)).None?
    ensures r.Err? ==> r.error == RangeError
    ensures r.Ok? && r.value.Some? ==>
      && r.value.value.id == b.id && r.value.value.title == b.service
      && r.value.value.start == b.date + "T" + TimeString(b.time)
      && r.value.value.color == StatusColor(b.status)
  {
    if b.date == "" || b.time == "" || b.service == "" then Ok(None)
    else
      var timeString := TimeString(b.time);
      if ':' !in timeString then Ok(None)
      else
        var start := b.date + "T" + timeString;
        var end :=
          match CalculateEndTime(b.date, timeString, Some(services), b.service)
          case Some(e) => Ok(e)
          case None =>
            match DateTimeString(start)
            case None => Err(RangeError)
            case Some(s) => Ok(s + MsPerHour);
        if end.Err? then Err(RangeError)
        else
          var color := StatusColor(b.status);
          Ok(Some(CalendarEvent(b.id, b.service, start, end.value, color, b.name, b.email, b.phone,
                                b.service, b.status, GetServiceDuration(Some(services), b.service))))
  }

  /**
   * A booking with a valid date and `HH:mm` time ends after its service's
   * duration, or, when that end is past the time range, after one hour.
   */
  lemma EventLastsServiceDuration(b: Booking, services: seq<Service>)
    requires b.service != "" && ParseDate(b.date).Some? && |b.time| == 5 && ParseTime(b.time).Some?
    ensures var r := ToCalendarEvent(b, services);
      && r.Ok? && r.value.Some?
      && DateTimeString(r.value.value.start).Some?
      && var start := DateTimeString(r.value.value.start).value;
         var end := start + GetServiceDuration(Some(services), b.service) * MsPerMinute;
         && (InTimeRange(end) ==> r.value.value.end == end)
         && (!InTimeRange(end) ==> r.value.value.end == start + MsPerHour)
  {
    ShortTimeShape(b.time);
    EndTimeAddsDuration(b.date, b.time, services, b.service);
    DateTimeOfParts(b.date, b.time);
  }

  /**
   * A booking whose time carries seconds (`HH:mm:ss`) keeps them after the
   * `.`-split, so its end time is not computed and the event lasts one hour
   * whatever its service.
   */
  lemma SecondsEventLastsAnHour(b: Booking, services: seq<Service>)
    requires b.service != "" && ParseDate(b.date).Some? && |b.time| == 8 && ParseTime(b.time).Some?
    ensures var r := ToCalendarEvent(b, services);
      && r.Ok? && r.value.Some?
      && DateTimeString(r.value.value.start).Some?
      && r.value.value.end == DateTimeString(r.value.value.start).value + MsPerHour
  {
    LongTimeShape(b.time);
    SecondsGiveNull(b.date, b.time, Some(services), b.service);
    DateTimeOfParts(b.date, b.time);
    assert LocalDateTime(b.date, b.time).Some?;
  }

  /** The events of the bookings, in order, skipped ones dropped; the first throw ends the map. */
  function ConvertAll(bs: seq<Booking>, services: seq<Service>): (r: Result<seq<CalendarEvent>, JsError>)
    ensures r.Ok? ==> |r.value| <= |bs|
    ensures r.Err? ==> r.error == RangeError
  {
    if bs == [] then Ok([])
    else
      match ToCalendarEvent(bs[0], services)
      case Err(e) => Err(e)
      case Ok(head) =>
        match ConvertAll(bs[1..], services)
        case Err(e) => Err(e)
        case Ok(rest) => Ok((if head.Some? then [head.value] else []) + rest)
  }

  /** The map throws exactly when the event of some booking throws. */
  lemma {:induction false} ConvertAllThrows(bs: seq<Booking>, services: seq<Service>)
    ensures ConvertAll(bs, services).Err? <==> exists b :: b in bs && ToCalendarEvent(b, services).Err?
  {
    if bs != [] {
      ConvertAllThrows(bs[1..], services);
      assert forall b :: b in bs <==> b == bs[0] || b in bs[1..];
    }
  }

  /**
   * `bookingsToEvents(bookings, services)`; a missing or non-array argument is
   * `None`. A kept booking whose start is not a valid date-time makes the
   * whole call throw.
   */
  function BookingsToEvents(bookings: Option<seq<Booking>>, services: Option<seq<Service>>): (r: Result<seq<CalendarEvent>, JsError>)
    ensures bookings.None? || services.None? ==> r == Ok([])
    ensures r.Ok? && bookings.Some? ==> |r.value| <= |bookings.value|
    ensures r.Err? <==>
      bookings.Some? && services.Some? && exists b :: b in bookings.value && ToCalendarEvent(b, services.value).Err?
    ensures r.Err? ==> r.error == RangeError
  {
    if bookings.None? || services.None? then Ok([])
    else
      ConvertAllThrows(bookings.value, services.value);
      ConvertAll(bookings.value, services.value)
  }

  /** A kept booking whose ten-character date is no valid date makes its event throw. */
  lemma InvalidDateThrows(b: Booking, services: seq<Service>)
    requires Convertible(b) && |b.date| == 10 && ParseDate(b.date).None?
    ensures ToCalendarEvent(b, services).Err?
  {
    var t := TimeString(b.time);
    assert DateTimeString(b.date + "T" + t + ":00").None? by {
      assert (b.date + "T" + t + ":00")[..10] == b.date;
    }
    assert DateTimeString(b.date + "T" + t).None? by {
      assert (b.date + "T" + t)[..10] == b.date;
    }
  }

  /** One booking dated `not-a-date` loses the whole batch, whatever the other bookings. */
  lemma InvalidDateLosesBatch(b: Booking, others: seq<Booking>, services: seq<Service>)
    requires b.date == "not-a-date" && b.time == "10:00" && b.service != ""
    ensures BookingsToEvents(Some(others + [b]), Some(services)).Err?
  {
    assert Convertible(b) by {
      assert b.time[2] == ':';
    }
    InvalidDateThrows(b, services);
    assert b in others + [b];
  }

  /* ---- the conversion as evidently intended: a booking that cannot be shown is skipped ---- */

  /** What `booking => ...` gives for each booking, in order. */
  function Results(bs: seq<Booking>, services: seq<Service>): (r: seq<Result<Option<CalendarEvent>, JsError>>)
    ensures |r| == |bs|
  {
    MapBookings(bs, b => ToCalendarEvent(b, services))
  }

  function MapBookings<R>(bs: seq<Booking>, f: Booking -> R): (r: seq<R>)
    ensures |r| == |bs| && forall i :: 0 <= i < |bs| ==> r[i] == f(bs[i])
  {
    seq(|bs|, i requires 0 <= i < |bs| => f(bs[i]))
  }

  lemma MapBookingsAppend<R>(a: seq<Booking>, b: seq<Booking>, f: Booking -> R)
    ensures MapBookings(a + b, f) == MapBookings(a, f) + MapBookings(b, f)
  {
    assert forall i :: 0 <= i < |a| + |b| ==> (a + b)[i] == if i < |a| then a[i] else b[i - |a|];
  }

  /** The event a result shows, if any. */
  function ShowableHead(r: Result<Option<CalendarEvent>, JsError>): seq<CalendarEvent> {
    if r.Ok? && r.value.Some? then [r.value.value] else []
  }

  /** The events the results show, in order; a throw shows nothing. */
  function ShowAll(rs: seq<Result<Option<CalendarEvent>, JsError>>): (r: seq<CalendarEvent>)
    ensures |r| <= |rs|
  {
    if rs == [] then [] else ShowableHead(rs[0]) + ShowAll(rs[1..])
  }

  lemma {:induction false} ShowAllAppend(a: seq<Result<Option<CalendarEvent>, JsError>>, b: seq<Result<Option<CalendarEvent>, JsError>>)
    ensures ShowAll(a + b) == ShowAll(a) + ShowAll(b)
  {
    if a == [] {
      assert a + b == b;
    } else {
      var t := a[1..];
      assert ShowAll(a + b) == ShowableHead(a[0]) + ShowAll(t + b) by {
        assert (a + b)[0] == a[0] && (a + b)[1..] == t + b;
      }
      ShowAllAppend(t, b);
      AppendAssoc(ShowableHead(a[0]), ShowAll(t), ShowAll(b));
    }
  }

  lemma AppendAssoc<T>(x: seq<T>, y: seq<T>, z: seq<T>)
    ensures x + (y + z) == (x + y) + z
  {
  }

  /** The events of the bookings, skipping those that would throw as well as those skipped already. */
  function ConvertShowable(bs: seq<Booking>, services: seq<Service>): (r: seq<CalendarEvent>)
    ensures |r| <= |bs|
  {
    ShowAll(Results(bs, services))
  }

  /** `bookingsToEvents` with a failed fallback start treated as one more skipped booking. */
  function BookingsToEventsSkipping(bookings: Option<seq<Booking>>, services: Option<seq<Service>>): (r: seq<CalendarEvent>)
    ensures bookings.None? || services.None? ==> r == []
  {
    if bookings.None? || services.None? then [] else ConvertShowable(bookings.value, services.value)
  }

  /** Where nothing throws, the corrected conversion gives what `bookingsToEvents` gives. */
  lemma {:induction false} SkippingAgrees(bs: seq<Booking>, services: seq<Service>)
    requires ConvertAll(bs, services).Ok?
    ensures ConvertShowable(bs, services) == ConvertAll(bs, services).value
  {
    if bs != [] {
      SkippingAgrees(bs[1..], services);
      var rs := Results(bs, services);
      assert rs[1..] == Results(bs[1..], services);
      assert ShowAll(rs) == ShowableHead(rs[0]) + ShowAll(rs[1..]);
    }
  }

  /** The corrected conversion keeps the events of the bookings around a bad one. */
  lemma SkippingDropsOnlyBad(before: seq<Booking>, bad: Booking, after: seq<Booking>, services: seq<Service>)
    requires ToCalendarEvent(bad, services).Err?
    ensures ConvertShowable(before + [bad] + after, services)
      == ConvertShowable(before, services) + ConvertShowable(after, services)
  {
    ResultsAround(before, bad, after, services);
    ShowAllSkipsThrow(Results(before, services), ToCalendarEvent(bad, services), Results(after, services));
  }

  lemma ResultsAround(before: seq<Booking>, bad: Booking, after: seq<Booking>, services: seq<Service>)
    ensures Results(before + [bad] + after, services)
      == Results(before, services) + [ToCalendarEvent(bad, services)] + Results(after, services)
  {
    MapBookingsAppend(before + [bad], after, b => ToCalendarEvent(b, services));
    MapBookingsAppend(before, [bad], b => ToCalendarEvent(b, services));
  }

  lemma ShowAllSkipsThrow(x: seq<Result<Option<CalendarEvent>, JsError>>, e: Result<Option<CalendarEvent>, JsError>,
                          y: seq<Result<Option<CalendarEvent>, JsError>>)
    requires e.Err?
    ensures ShowAll(x + [e] + y) == ShowAll(x) + ShowAll(y)
  {
    assert ShowAll([e]) == [] by {
      assert [e][1..] == [];
    }
    ShowAllAppend(x + [e], y);
    ShowAllAppend(x, [e]);
  }

  /** `a` is `b` with some elements left out. */
  predicate Subsequence<T(==)>(a: seq<T>, b: seq<T>)
    decreases |b|
  {
    if a == [] then true
    else if b == [] then false
    else (a[0] == b[0] && Subsequence(a[1..], b[1..])) || Subsequence(a, b[1..])
  }

  /** The bookings `bookingsToEvents` does not skip, in their order. */
  function Kept(bs: seq<Booking>, services: seq<Service>): (r: seq<Booking>)
    ensures |r| <= |bs|
    ensures forall b :: b in r <==> b in bs && ToCalendarEvent(b, services) != Ok(None)
  {
    if bs == [] then []
    else
      var rest := Kept(bs[1..], services);
      assert forall b :: b in bs <==> b == bs[0] || b in bs[1..];
      if ToCalendarEvent(bs[0], services) != Ok(None) then [bs[0]] + rest else rest
  }

  /** The events are those of the kept bookings, one each, in the same order. */
  lemma {:induction false} EventsFollowKept(bs: seq<Booking>, services: seq<Service>)
    requires ConvertAll(bs, services).Ok?
    ensures |ConvertAll(bs, services).value| == |Kept(bs, services)|
    ensures forall i :: 0 <= i < |Kept(bs, services)| ==>
      ToCalendarEvent(Kept(bs, services)[i], services) == Ok(Some(ConvertAll(bs, services).value[i]))
  {
    if bs != [] {
      ConvertAllStep(bs, services);
      KeptStep(bs, services);
      EventsFollowKept(bs[1..], services);
      PairUp(b => ToCalendarEvent(b, services), bs[0], Kept(bs[1..], services), ConvertAll(bs[1..], services).value);
    }
  }

  lemma ConvertAllStep(bs: seq<Booking>, services: seq<Service>)
    requires bs != [] && ConvertAll(bs, services).Ok?
    ensures ToCalendarEvent(bs[0], services).Ok? && ConvertAll(bs[1..], services).Ok?
    ensures ConvertAll(bs, services).value
      == ShowableHead(ToCalendarEvent(bs[0], services)) + ConvertAll(bs[1..], services).value
  {
  }

  lemma KeptStep(bs: seq<Booking>, services: seq<Service>)
    requires bs != []
    ensures Kept(bs, services)
      == (if ToCalendarEvent(bs[0], services) != Ok(None) then [bs[0]] else []) + Kept(bs[1..], services)
  {
  }

  /** Pairing a head with its event keeps every kept booking paired with its event. */
  lemma PairUp(f: Booking -> Result<Option<CalendarEvent>, JsError>, b: Booking, kept: seq<Booking>, events: seq<CalendarEvent>)
    requires f(b).Ok? && |kept| == |events|
    requires forall i :: 0 <= i < |kept| ==> f(kept[i]) == Ok(Some(events[i]))
    ensures var kept' := (if f(b) != Ok(None) then [b] else []) + kept;
      var events' := ShowableHead(f(b)) + events;
      |kept'| == |events'| && forall i :: 0 <= i < |kept'| ==> f(kept'[i]) == Ok(Some(events'[i]))
  {
    if f(b) != Ok(None) {
      var kept' := [b] + kept;
      var events' := ShowableHead(f(b)) + events;
      forall i | 0 <= i < |kept'| ensures f(kept'[i]) == Ok(Some(events'[i])) {
        if i > 0 {
          assert kept'[i] == kept[i - 1] && events'[i] == events[i - 1];
        }
      }
    } else {
      assert [] + kept == kept && [] + events == events;
    }
  }

  /** The kept bookings are the input with some bookings left out. */
  lemma {:induction false} KeptIsSubsequence(bs: seq<Booking>, services: seq<Service>)
    ensures Subsequence(Kept(bs, services), bs)
  {
    if bs != [] {
      KeptIsSubsequence(bs[1..], services);
      var keptRest := Kept(bs[1..], services);
      if ToCalendarEvent(bs[0], services) != Ok(None) {
        assert ([bs[0]] + keptRest)[1..] == keptRest;
      } else {
        SubsequenceSkip(keptRest, bs);
      }
    }
  }

  /** Dropping the first element of the longer sequence keeps a subsequence one. */
  lemma SubsequenceSkip<T>(a: seq<T>, b: seq<T>)
    requires b != [] && Subsequence(a, b[1..])
    ensures Subsequence(a, b)
  {
  }
}
