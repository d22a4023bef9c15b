/**
 * The `useBookings` hook: its own variant of the date-range cache over the
 * store's ranges (with date-string results and a different trailing-gap
 * rule), the guarded and time-limited `getBookings`, and the service lookups.
 * The closures read the store as it was when the hook rendered; here they
 * read the `BookingsState` object or a snapshot passed in.
 */
module UseBookings {
  import opened Wrappers
  import opened Text
  import opened Dates
  import opened Sorting
  import opened Records
  import opened BookingsSlice
  import DashboardRanges

  /* ---------------- isDateRangeCached ---------------- */

  /** `new Date(v).getTime()` of an argument that may be `undefined` (`NaN`, `None` here). */
  function TimeOf(v: Option<DateValue>): Option<int> {
    match v
    case None => None
    case Some(d) => Some(Millis(d))
  }

  /** `startTime >= cachedStartTime && endTime <= cachedEndTime`. */
  predicate SpanContains(r: Span, start: int, end: int) {
    Millis(r.start) <= start && end <= Millis(r.end)
  }

  /** Some single cached range holds the request; a `NaN` bound fails every comparison. */
  predicate Covered(cached: seq<Span>, start: Option<DateValue>, end: Option<DateValue>) {
    start.Some? && end.Some?
    && exists i :: 0 <= i < |cached| && SpanContains(cached[i], Millis(start.value), Millis(end.value))
  }

  method IsDateRangeCached(cached: seq<Span>, start: Option<DateValue>, end: Option<DateValue>) returns (b: bool)
    ensures b <==> Covered(cached, start, end)
    ensures cached == [] ==> !b
  {
    if |cached| == 0 {
      return false;
    }
    var startTime, endTime := TimeOf(start), TimeOf(end);
    for i := 0 to |cached|
      invariant start.Some? && end.Some? ==>
        forall j :: 0 <= j < i ==> !SpanContains(cached[j], Millis(start.value), Millis(end.value))
    {
      var cachedStartTime, cachedEndTime := Millis(cached[i].start), Millis(cached[i].end);
      if startTime.Some? && endTime.Some? && startTime.value >= cachedStartTime && endTime.value <= cachedEndTime {
        return true;
      }
    }
    return false;
  }

  /* ---------------- getUncachedSubRanges ---------------- */

  /** `new Date(ms).toISOString().split('T')[0]`. */
  function Day(ms: int): DateValue {
    DayString(DayOf(ms))
  }

  predicate IsDaySpan(s: Span) {
    s.start.DayString? && s.end.DayString?
  }

  /**
   * From cached range `i` on, with the running start `cur`: the gap between
   * each consecutive pair (only when not empty), then `[cur, end)` whenever
   * `cur < end`, all as day strings.
   */
  function DayGapsFrom(rs: seq<Span>, i: nat, cur: int, end: int): seq<Span>
    requires i < |rs|
    decreases |rs| - i
  {
    if i == |rs| - 1 then DayGap(cur, end)
    else
      DayGap(Max(cur, Millis(rs[i].end)), Min(end, Millis(rs[i + 1].start)))
        + DayGapsFrom(rs, i + 1, Max(cur, Millis(rs[i + 1].end)), end)
  }

  /** The gap `[gapStart, gapEnd)` as a span of days, nothing when it is empty. */
  function DayGap(gapStart: int, gapEnd: int): seq<Span> {
    if gapStart < gapEnd then [Span(Day(gapStart), Day(gapEnd))] else []
  }

  /** One step of the hook's loop: the gap after range `i` comes first. */
  lemma DayGapsStep(rs: seq<Span>, i: nat, cur: int, end: int, found: seq<Span>)
    requires i < |rs| - 1
    ensures found + DayGapsFrom(rs, i, cur, end)
      == (found + DayGap(Max(cur, Millis(rs[i].end)), Min(end, Millis(rs[i + 1].start))))
        + DayGapsFrom(rs, i + 1, Max(cur, Millis(rs[i + 1].end)), end)
  {
  }

  /** The sub-ranges found for a non-empty cache sorted by start. */
  function SortedDayGaps(sorted: seq<Span>, start: int, end: int): seq<Span>
    requires sorted != []
  {
    var first := Millis(sorted[0].start);
    if start < first && end > first then
      [Span(Day(start), Day(Min(end, first)))] + DayGapsFrom(sorted, 0, Millis(sorted[0].end), end)
    else
      DayGapsFrom(sorted, 0, start, end)
  }

  /** What the hook's `getUncachedSubRanges(start, end)` returns for the cache `cached`. */
  function UncachedSubRanges(cached: seq<Span>, start: DateValue, end: DateValue): seq<Span> {
    if cached == [] then [Span(start, end)]
    else if Covered(cached, Some(start), Some(end)) then []
    else
      SortedSpansFacts(cached);
      SortedDayGaps(SortSpans(cached), Millis(start), Millis(end))
  }

  /** Every span of `rs` is a pair of day strings. */
  predicate AllDays(rs: seq<Span>) {
    forall k :: 0 <= k < |rs| ==> IsDaySpan(rs[k])
  }

  lemma {:induction false} DayGapsAreDays(rs: seq<Span>, i: nat, cur: int, end: int)
    requires i < |rs|
    ensures AllDays(DayGapsFrom(rs, i, cur, end))
    decreases |rs| - i
  {
    if i < |rs| - 1 {
      DayGapsAreDays(rs, i + 1, Max(cur, Millis(rs[i + 1].end)), end);
    }
  }

  /** Once the cache holds anything, the hook answers in day strings only. */
  lemma SubRangesAreDays(cached: seq<Span>, start: DateValue, end: DateValue)
    requires cached != []
    ensures AllDays(UncachedSubRanges(cached, start, end))
  {
    if !Covered(cached, Some(start), Some(end)) {
      SortedSpansFacts(cached);
      var sorted := SortSpans(cached);
      var first := Millis(sorted[0].start);
      if Millis(start) < first && Millis(end) > first {
        DayGapsAreDays(sorted, 0, Millis(sorted[0].end), Millis(end));
      } else {
        DayGapsAreDays(sorted, 0, Millis(start), Millis(end));
      }
    }
  }

  method GetUncachedSubRanges(cached: seq<Span>, start: DateValue, end: DateValue) returns (subRanges: seq<Span>)
    ensures subRanges == UncachedSubRanges(cached, start, end)
    ensures cached == [] ==> subRanges == [Span(start, end)]
    ensures Covered(cached, Some(start), Some(end)) && cached != [] ==> subRanges == []
  {
    if |cached| == 0 {
      return [Span(start, end)];
    }
    var covered := IsDateRangeCached(cached, Some(start), Some(end));
    if covered {
      return [];
    }
    var sortedRanges := SortSpans(cached);
    SortedSpansFacts(cached);
    subRanges := [];
    var currentStart := Millis(start);
    var endDate := Millis(end);
    var first := Millis(sortedRanges[0].start);
    if currentStart < first && endDate > first {
      subRanges := subRanges + [Span(Day(currentStart), Day(Min(endDate, first)))];
      currentStart := Millis(sortedRanges[0].end);
    }
    var gaps := CollectDayGaps(sortedRanges, currentStart, endDate);
    subRanges := subRanges + gaps;
  }

  /** The gap-finding loop and the trailing gap of the hook's `getUncachedSubRanges`. */
  method CollectDayGaps(sortedRanges: seq<Span>, start: int, end: int) returns (subRanges: seq<Span>)
    requires |sortedRanges| >= 1
    ensures subRanges == DayGapsFrom(sortedRanges, 0, start, end)
  {
    subRanges := [];
    var currentStart := start;
    var i := 0;
    while i < |sortedRanges| - 1
      invariant 0 <= i <= |sortedRanges| - 1
      invariant subRanges + DayGapsFrom(sortedRanges, i, currentStart, end) == DayGapsFrom(sortedRanges, 0, start, end)
    {
      var gapStart := Max(currentStart, Millis(sortedRanges[i].end));
      var gapEnd := Min(end, Millis(sortedRanges[i + 1].start));
      DayGapsStep(sortedRanges, i, currentStart, end, subRanges);
      ghost var found := subRanges + DayGap(gapStart, gapEnd);
      if gapStart < gapEnd {
        subRanges := subRanges + [Span(Day(gapStart), Day(gapEnd))];
      }
      assert subRanges == found;
      currentStart := Max(currentStart, Millis(sortedRanges[i + 1].end));
      i := i + 1;
    }
    ghost var found := subRanges + DayGap(currentStart, end);
    if currentStart < end {
      subRanges := subRanges + [Span(Day(currentStart), Day(end))];
    }
    assert subRanges == found;
  }

  /** The span of day strings includes day `d`. */
  predicate DaysInclude(s: Span, d: int) {
    IsDaySpan(s) && s.start.day <= d <= s.end.day
  }

  /** Some returned span includes day `d`. */
  predicate SomeDaysInclude(rs: seq<Span>, d: int) {
    exists k :: 0 <= k < |rs| && DaysInclude(rs[k], d)
  }

  lemma DayGapIncludes(gapStart: int, gapEnd: int, t: int)
    requires gapStart <= t < gapEnd
    ensures DaysInclude(Span(Day(gapStart), Day(gapEnd)), DayOf(t))
  {
    DayOfMonotone(gapStart, t);
    DayOfMonotone(t, gapEnd);
  }

  lemma {:induction false} DayGapsCover(rs: seq<Span>, i: nat, cur: int, end: int, t: int)
    requires i < |rs|
    requires cur <= t < end && Millis(rs[i].start) <= t
    requires forall r :: r in rs ==> !ContainsInstant(r, t)
    ensures SomeDaysInclude(DayGapsFrom(rs, i, cur, end), DayOf(t))
    decreases |rs| - i
  {
    assert rs[i] in rs;
    var gaps := DayGapsFrom(rs, i, cur, end);
    if i == |rs| - 1 {
      DayGapIncludes(cur, end, t);
      assert DaysInclude(gaps[0], DayOf(t));
    } else {
      assert rs[i + 1] in rs;
      var gapStart, gapEnd := Max(cur, Millis(rs[i].end)), Min(end, Millis(rs[i + 1].start));
      var gap := DayGap(gapStart, gapEnd);
      var rest := DayGapsFrom(rs, i + 1, Max(cur, Millis(rs[i + 1].end)), end);
      assert gaps == gap + rest;
      if t < Millis(rs[i + 1].start) {
        DayGapIncludes(gapStart, gapEnd, t);
        assert DaysInclude(gaps[0], DayOf(t));
      } else {
        DayGapsCover(rs, i + 1, Max(cur, Millis(rs[i + 1].end)), end, t);
        var k :| 0 <= k < |rest| && DaysInclude(rest[k], DayOf(t));
        assert gaps[|gap| + k] == rest[k];
      }
    }
  }

  lemma SortedDayGapsCover(sorted: seq<Span>, start: int, end: int, t: int)
    requires sorted != [] && Millis(sorted[0].start) < end
    requires start <= t < end
    requires forall r :: r in sorted ==> !ContainsInstant(r, t)
    ensures SomeDaysInclude(SortedDayGaps(sorted, start, end), DayOf(t))
  {
    assert sorted[0] in sorted;
    var first := Millis(sorted[0].start);
    var subs := SortedDayGaps(sorted, start, end);
    if start < first && end > first {
      var lead := [Span(Day(start), Day(Min(end, first)))];
      var rest := DayGapsFrom(sorted, 0, Millis(sorted[0].end), end);
      assert subs == lead + rest;
      if t < first {
        DayGapIncludes(start, Min(end, first), t);
        assert DaysInclude(subs[0], DayOf(t));
      } else {
        DayGapsCover(sorted, 0, Millis(sorted[0].end), end, t);
        var k :| 0 <= k < |rest| && DaysInclude(rest[k], DayOf(t));
        assert subs[1 + k] == rest[k];
      }
    } else {
      DayGapsCover(sorted, 0, start, end, t);
    }
  }

  /**
   * When some cached range starts before the request ends, the day of every
   * instant of `[start, end)` that no cached range holds lies in a returned
   * span of days.
   */
  lemma UncachedDaysFetched(cached: seq<Span>, start: DateValue, end: DateValue, t: int)
    requires exists r :: r in cached && Millis(r.start) < Millis(end)
    requires Millis(start) <= t < Millis(end)
    requires forall r :: r in cached ==> !ContainsInstant(r, t)
    ensures SomeDaysInclude(UncachedSubRanges(cached, start, end), DayOf(t))
  {
    var w :| w in cached && Millis(w.start) < Millis(end);
    assert !Covered(cached, Some(start), Some(end)) by {
      forall i | 0 <= i < |cached|
        ensures !SpanContains(cached[i], Millis(start), Millis(end))
      {
        assert cached[i] in cached;
      }
    }
    SortedSpansFacts(cached);
    SortedDayGapsCover(SortSpans(cached), Millis(start), Millis(end), t);
  }

  /**
   * With a single cached range, a request lying wholly before it comes back
   * whole from the hook (as day strings), where the dashboard's variant finds
   * nothing to fetch.
   */
  lemma TrailingRuleDiffers(a: int, b: int, s: int, e: int)
    requires a <= b && s < e <= a
    ensures UncachedSubRanges([Span(Instant(a), Instant(b))], Instant(s), Instant(e)) == [Span(Day(s), Day(e))]
    ensures DashboardRanges.UncachedSubRanges([Interval(a, b)], s, e) == []
  {
    var cached := [Span(Instant(a), Instant(b))];
    assert SortSpans(cached) == cached by {
      assert cached[..0] == [];
    }
    assert !DashboardRanges.Covered([Interval(a, b)], s, e) by {
      assert !DashboardRanges.ContainsRange([Interval(a, b)][0], s, e);
    }
    assert SortIntervals([Interval(a, b)]) == [Interval(a, b)] by {
      assert [Interval(a, b)][..0] == [];
    }
  }

  /* ---------------- getBookings ---------------- */

  /** `window._bookingFetchInProgress`. */
  class FetchFlag {
    var inProgress: bool

    constructor()
      ensures !inProgress
    {
      inProgress := false;
    }
  }

  /** `resultAction.payload`: the fulfilled data or the rejection value. */
  datatype Payload<T> = Data(value: T) | Message(text: string)

  /** How a thunk settles: with the response data, or rejected with a message. */
  datatype Outcome<T> = Fulfilled(data: T) | Rejected(reason: string)

  function PayloadOf<T>(outcome: Outcome<T>): Payload<T> {
    match outcome
    case Fulfilled(data) => Data(data)
    case Rejected(reason) => Message(reason)
  }

  /** Five minutes, in milliseconds. */
  const FreshFor: int := 5 * MsPerMinute

  /**
   * The store once a `fetchBookings` has settled with `outcome` at instant
   * `settledAt`: not loading, the bookings replaced and the fetch time set to
   * `settledAt` on success, the error recorded on failure, services untouched.
   */
  twostate predicate Settled(store: BookingsState, outcome: Outcome<seq<Booking>>, settledAt: int)
    reads store
  {
    && !store.loading
    && store.services == old(store.services)
    && (outcome.Fulfilled? ==>
          store.bookings == outcome.data && store.lastFetchTime == Some(settledAt) && store.error == None)
    && (outcome.Rejected? ==>
          store.bookings == old(store.bookings) && store.lastFetchTime == old(store.lastFetchTime)
          && store.error == Some(Reason(Some(outcome.reason), "Failed to fetch bookings")))
  }

  /**
   * `dispatch(fetchBookings(...))`: the pending reducer, then the settling
   * one, whose `new Date()` reads the clock at `settledAt`.
   */
  method DispatchFetchBookings(store: BookingsState, outcome: Outcome<seq<Booking>>, settledAt: int)
    returns (payload: Payload<seq<Booking>>)
    modifies store
    ensures payload == PayloadOf(outcome)
    ensures Settled(store, outcome, settledAt)
    ensures store.cachedDateRanges == old(store.cachedDateRanges)
  {
    store.FetchPending();
    if outcome.Fulfilled? {
      store.FetchBookingsFulfilled(outcome.data, settledAt);
    } else {
      store.FetchBookingsRejected(Some(outcome.reason));
    }
    payload := PayloadOf(outcome);
  }

  /** `getBookings` fetches: forced, the range is not covered, or nothing was fetched yet. */
  predicate MustFetch(ranges: seq<Span>, lastFetchTime: Option<int>,
                      startDate: Option<DateValue>, endDate: Option<DateValue>, forceRefresh: bool) {
    forceRefresh || !Covered(ranges, startDate, endDate) || lastFetchTime.None?
  }

  /**
   * `getBookings(date, startDate, endDate, forceRefresh)` at instant `now`,
   * with `outcome` the way the thunk would settle and `settledAt` the later
   * clock reading of the fulfilled reducer, which stamps the fetch. A call made while another
   * is in progress returns `[]` and touches nothing; otherwise the flag is
   * set, the call fetches (and records the range when both bounds are
   * given), returns the stored bookings when they are under five minutes
   * old, or fetches again, and clears the flag on the way out.
   */
  method GetBookings(flag: FetchFlag, store: BookingsState, startDate: Option<DateValue>, endDate: Option<DateValue>,
                     forceRefresh: bool, now: int, settledAt: int, outcome: Outcome<seq<Booking>>)
    returns (result: Payload<seq<Booking>>)
    modifies flag, store
    ensures flag.inProgress == old(flag.inProgress)
    ensures old(flag.inProgress) ==> result == Data([]) && unchanged(store)
    ensures !old(flag.inProgress) && MustFetch(old(store.cachedDateRanges), old(store.lastFetchTime), startDate, endDate, forceRefresh) ==>
      result == PayloadOf(outcome) && Settled(store, outcome, settledAt)
      && store.cachedDateRanges == (if startDate.Some? && endDate.Some?
                                    then Merged(old(store.cachedDateRanges), Span(startDate.value, endDate.value))
                                    else old(store.cachedDateRanges))
    ensures !old(flag.inProgress) && !MustFetch(old(store.cachedDateRanges), old(store.lastFetchTime), startDate, endDate, forceRefresh)
            && old(store.lastFetchTime).value > now - FreshFor ==>
      result == Data(old(store.bookings)) && unchanged(store)
    ensures !old(flag.inProgress) && !MustFetch(old(store.cachedDateRanges), old(store.lastFetchTime), startDate, endDate, forceRefresh)
            && old(store.lastFetchTime).value <= now - FreshFor ==>
      result == PayloadOf(outcome) && Settled(store, outcome, settledAt)
      && store.cachedDateRanges == old(store.cachedDateRanges)
  {
    if flag.inProgress {
      return Data([]);
    }
    flag.inProgress := true;
    var cached := IsDateRangeCached(store.cachedDateRanges, startDate, endDate);
    if forceRefresh || !cached || store.lastFetchTime.None? {
      result := DispatchFetchBookings(store, outcome, settledAt);
      if startDate.Some? && endDate.Some? {
        store.AddDateRange(Span(startDate.value, endDate.value));
      }
      flag.inProgress := false;
      return;
    }
    if store.lastFetchTime.value > now - FreshFor {
      flag.inProgress := false;
      return Data(store.bookings);
    }
    result := DispatchFetchBookings(store, outcome, settledAt);
    flag.inProgress := false;
  }

  /* ---------------- getServices and getServiceByName ---------------- */

  /** `getServices()`: the stored services when there are any, else the fetch's payload. */
  method GetServices(store: BookingsState, outcome: Outcome<seq<Service>>) returns (result: Payload<seq<Service>>)
    modifies store
    ensures old(store.services) != [] ==> result == Data(old(store.services)) && unchanged(store)
    ensures old(store.services) == [] ==>
      result == PayloadOf(outcome) && !store.loading
      && store.bookings == old(store.bookings) && store.cachedDateRanges == old(store.cachedDateRanges)
      && store.lastFetchTime == old(store.lastFetchTime)
      && store.services == (if outcome.Fulfilled? then outcome.data else old(store.services))
      && store.error == (if outcome.Fulfilled? then None else Some(Reason(Some(outcome.reason), "Failed to fetch services")))
  {
    if |store.services| > 0 {
      return Data(store.services);
    }
    store.FetchPending();
    if outcome.Fulfilled? {
      store.FetchServicesFulfilled(outcome.data);
    } else {
      store.FetchServicesRejected(Some(outcome.reason));
    }
    result := PayloadOf(outcome);
  }

  /** `services.find(service => service.name === serviceName)`: exact, case-sensitive. */
  function GetServiceByName(services: seq<Service>, serviceName: string): (r: Option<Service>)
    ensures r.None? <==> forall i :: 0 <= i < |services| ==> services[i].name != serviceName
    ensures r.Some? ==> exists i :: 0 <= i < |services| && services[i] == r.value && r.value.name == serviceName
                                   && forall j :: 0 <= j < i ==> services[j].name != serviceName
  {
    if services == [] then None
    else if services[0].name == serviceName then Some(services[0])
    else
      var rest := GetServiceByName(services[1..], serviceName);
      assert forall i :: 1 <= i < |services| ==> services[i] == services[1..][i - 1];
      rest
  }
}
