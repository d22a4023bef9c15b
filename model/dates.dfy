/**
 * Time values of the frontend. An instant is a number of milliseconds since
 * the epoch, a `yyyy-MM-dd` string is the number of its day since 1970-01-01,
 * and the local time zone is taken to be UTC.
 */
module Dates {
  import opened Wrappers
  import opened Text

  /** What the JavaScript runtime throws in the code modelled: `toISOString` on an Invalid Date, a call on `undefined`. */
  datatype JsError = TypeError | RangeError

  const MsPerSecond: int := 1000
  const MsPerMinute: int := 60 * MsPerSecond
  const MsPerHour: int := 60 * MsPerMinute
  const MsPerDay: int := 24 * MsPerHour

  /**
   * What the frontend keeps as a range endpoint: a `Date` object (an instant)
   * or a `yyyy-MM-dd` string (a day).
   */
  datatype DateValue = Instant(ms: int) | DayString(day: int)

  /** `new Date(v).getTime()`: a date-only string denotes midnight UTC of its day. */
  function Millis(v: DateValue): int {
    match v
    case Instant(ms) => ms
    case DayString(d) => d * MsPerDay
  }

  /** The day of an instant: `toISOString().split('T')[0]`, or `format(d, 'yyyy-MM-dd')`. */
  function DayOf(ms: int): (d: int)
    ensures d * MsPerDay <= ms < (d + 1) * MsPerDay
  {
    ms / MsPerDay
  }

  lemma DayOfMonotone(a: int, b: int)
    requires a <= b
    ensures DayOf(a) <= DayOf(b)
  {
  }

  /** A range of instants, as the dashboard's `{ start, end }` objects of two `Date`s. */
  datatype Interval = Interval(start: int, end: int)

  /** A range whose endpoints are kept as they were given: `Date`s or date strings. */
  datatype Span = Span(start: DateValue, end: DateValue)

  function Min(a: int, b: int): int { if a <= b then a else b }
  function Max(a: int, b: int): int { if a >= b then a else b }

  /* ---- The date-time string format of ECMAScript (section 21.4.3.1 of ECMA-262) ---- */

  predicate IsLeapYear(y: int) {
    (y % 4 == 0 && y % 100 != 0) || y % 400 == 0
  }

  function DaysInMonth(y: int, m: int): int
    requires 1 <= m <= 12
  {
    if m == 2 then (if IsLeapYear(y) then 29 else 28)
    else if m == 4 || m == 6 || m == 9 || m == 11 then 30
    else 31
  }

  /** Days from 1970-01-01 to the given civil date of the proleptic Gregorian calendar. */
  function DayNumber(y: int, m: int, d: int): int
    requires 1 <= m <= 12
  {
    var y' := if m <= 2 then y - 1 else y;
    var era := y' / 400;
    var yoe := y' - era * 400;
    var mp := if m > 2 then m - 3 else m + 9;
    var doy := (153 * mp + 2) / 5 + d - 1;
    var doe := yoe * 365 + yoe / 4 - yoe / 100 + doy;
    era * 146097 + doe - 719468
  }

  /** A `YYYY-MM-DD` string, as its day number; anything else is an invalid date. */
  function ParseDate(s: string): Option<int> {
    if |s| == 10 && s[4] == '-' && s[7] == '-'
       && AllDigits(s[..4]) && AllDigits(s[5..7]) && AllDigits(s[8..])
    then
      var y, m, d := DigitsValue(s[..4]), DigitsValue(s[5..7]), DigitsValue(s[8..]);
      if 1 <= m <= 12 && 1 <= d <= DaysInMonth(y, m) then Some(DayNumber(y, m, d)) else None
    else None
  }

  predicate TwoDigits(s: string, i: nat) {
    i + 2 <= |s| && AllDigits(s[i..i + 2])
  }

  /**
   * An `HH:mm`, `HH:mm:ss` or `HH:mm:ss.sss` string, as milliseconds since
   * midnight; `24:00` is allowed only with every other field zero.
   */
  function ParseTime(s: string): Option<int> {
    if (|s| == 5 || |s| == 8 || |s| == 12) && TwoDigits(s, 0) && s[2] == ':' && TwoDigits(s, 3)
       && (|s| >= 8 ==> s[5] == ':' && TwoDigits(s, 6))
       && (|s| == 12 ==> s[8] == '.' && AllDigits(s[9..]))
    then
      var hh, mm := DigitsValue(s[..2]), DigitsValue(s[3..5]);
      var ss := if |s| >= 8 then DigitsValue(s[6..8]) else 0;
      var ms := if |s| == 12 then DigitsValue(s[9..]) else 0;
      if hh <= 24 && mm <= 59 && ss <= 59 && (hh == 24 ==> mm == 0 && ss == 0 && ms == 0)
      then Some(hh * MsPerHour + mm * MsPerMinute + ss * MsPerSecond + ms)
      else None
    else None
  }

  /**
   * `new Date(date + 'T' + time).getTime()`: a date-time form without an
   * offset is local time; `None` stands for an Invalid Date (`NaN`).
   */
  function LocalDateTime(date: string, time: string): Option<int> {
    match (ParseDate(date), ParseTime(time))
    case (Some(d), Some(t)) => Some(d * MsPerDay + t)
    case _ => None
  }

  /**
   * `new Date(s).getTime()` for a string of the form `<date>T<time>`; other
   * forms are not produced by the code modelled and are `None` here.
   */
  function DateTimeString(s: string): Option<int> {
    if |s| >= 11 && s[10] == 'T' then LocalDateTime(s[..10], s[11..]) else None
  }

  /**
   * The largest magnitude of a `Date`'s time value (section 21.4.1.1 of
   * ECMA-262): `new Date(t)` for a `t` beyond it is an Invalid Date, whose
   * `toISOString` throws a RangeError.
   */
  const MaxTimeValue: int := 8_640_000_000_000_000

  predicate InTimeRange(t: int) {
    -MaxTimeValue <= t <= MaxTimeValue
  }

  function Pow10(n: nat): (p: nat)
    ensures p >= 1
  {
    if n == 0 then 1 else 10 * Pow10(n - 1)
  }

  /** A run of `n` decimal digits is worth less than `10^n`. */
  lemma {:induction false} DigitsBelow(s: string)
    requires AllDigits(s)
    ensures DigitsValue(s) < Pow10(|s|)
  {
    if s != [] {
      var front := s[..|s| - 1];
      DigitsBelow(front);
      assert DigitsValue(front) + 1 <= Pow10(|front|);
      assert 10 * DigitsValue(front) + 10 <= 10 * Pow10(|front|);
    }
  }

  /** The day number of a date with a four-digit year lies within a few million days of the epoch. */
  lemma DayNumberBounds(y: int, m: int, d: int)
    requires 0 <= y <= 9999 && 1 <= m <= 12 && 1 <= d <= 31
    ensures -1000000 <= DayNumber(y, m, d) <= 3000000
  {
    var y' := if m <= 2 then y - 1 else y;
    var era := y' / 400;
    assert -1 <= era <= 24;
    var yoe := y' - era * 400;
    assert 0 <= yoe < 400;
    assert -146097 <= era * 146097 <= 24 * 146097;
  }

  lemma DateBounds(date: string)
    requires ParseDate(date).Some?
    ensures -1000000 <= ParseDate(date).value <= 3000000
  {
    DigitsBelow(date[..4]);
    assert Pow10(4) == 10000;
    DayNumberBounds(DigitsValue(date[..4]), DigitsValue(date[5..7]), DigitsValue(date[8..]));
  }

  lemma TimeBounds(time: string)
    requires ParseTime(time).Some?
    ensures 0 <= ParseTime(time).value <= 24 * MsPerHour
  {
    var hh, mm := DigitsValue(time[..2]), DigitsValue(time[3..5]);
    var ss := if |time| >= 8 then DigitsValue(time[6..8]) else 0;
    var ms := if |time| == 12 then DigitsValue(time[9..]) else 0;
    assert ParseTime(time).value == hh * MsPerHour + mm * MsPerMinute + ss * MsPerSecond + ms;
    assert hh <= 24 && mm <= 59 && ss <= 59 && (hh == 24 ==> mm == 0 && ss == 0 && ms == 0);
    if |time| == 12 {
      DigitsBelow(time[9..]);
      assert Pow10(3) == 1000;
    }
    assert ms <= 999;
    assert MsPerHour == 3600000 && MsPerMinute == 60000 && MsPerSecond == 1000;
    if hh == 24 {
      assert ParseTime(time).value == 24 * MsPerHour;
    } else {
      assert hh * MsPerHour <= 23 * MsPerHour;
    }
  }

  /**
   * Every instant a `YYYY-MM-DD` date and a time denote, and the instant an
   * hour later, lie in the time range: the one-hour ends never make an
   * Invalid Date.
   */
  lemma StartsInTimeRange(date: string, time: string)
    requires LocalDateTime(date, time).Some?
    ensures InTimeRange(LocalDateTime(date, time).value)
    ensures InTimeRange(LocalDateTime(date, time).value + MsPerHour)
  {
    DateBounds(date);
    TimeBounds(time);
  }

  /** A valid date holds only digits and dashes, so no `T`. */
  lemma ValidDateHasNoT(date: string)
    requires ParseDate(date).Some?
    ensures 'T' !in date
  {
    forall i | 0 <= i < |date| ensures date[i] != 'T' {
      if i < 4 {
        assert date[..4][i] == date[i];
      } else if 4 < i < 7 {
        assert date[5..7][i - 5] == date[i];
      } else if 7 < i {
        assert date[8..][i - 8] == date[i];
      }
    }
  }

  /** The date-time string built from a valid date reads back as that date and time. */
  lemma DateTimeOfParts(date: string, time: string)
    requires ParseDate(date).Some?
    ensures DateTimeString(date + "T" + time) == LocalDateTime(date, time)
  {
    var s := date + "T" + time;
    assert s[..10] == date && s[11..] == time;
  }

  /** Appending `:00` to an `HH:mm` time names the same instant. */
  lemma {:induction false} SecondsSuffixSameInstant(date: string, time: string)
    requires |time| == 5 && ParseTime(time).Some?
    ensures LocalDateTime(date, time + ":00") == LocalDateTime(date, time)
  {
    var t := time + ":00";
    assert t[..2] == time[..2] && t[3..5] == time[3..5];
    assert t[0..2] == time[0..2] && t[3..3 + 2] == time[3..3 + 2];
    assert t[6..8] == "00";
    assert t[6..6 + 2] == "00";
    assert DigitsValue("00") == 0 by {
      assert "00"[..1] == "0";
      assert "0"[..0] == "";
    }
  }

  /** A time that already carries seconds becomes unparsable once `:00` is appended. */
  lemma {:induction false} SecondsTwiceInvalid(date: string, time: string)
    requires |time| == 8
    ensures LocalDateTime(date, time + ":00") == None
  {
    assert |time + ":00"| == 11;
  }
}
