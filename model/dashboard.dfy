/**
 * The hair artist's dashboard: fetched bookings become calendar events, the
 * events are cached per date, and a window of the calendar is filled from the
 * cache and from the server, de-duplicated by booking id. The React state
 * variables are the fields of `Dashboard`.
 */
module HairArtistDashboard {
  import opened Wrappers
  import opened Text
  import opened Dates
  import opened Records
  import opened DashboardRanges

  /**
   * A calendar event: `start` is the `<date>T<time>` string, `end` the instant
   * `calculateEndTime` gives, and `booking` the extended properties.
   */
  datatype Event = Event(id: int, title: string, start: string, end: int, booking: Booking)

  /* ---------------- event construction ---------------- */

  /** `calculateEndTime(date, time)`: `toISOString` on an Invalid Date throws a RangeError. */
  function CalculateEndTime(date: string, time: string): (r: Result<int, JsError>)
    ensures r.Err? ==> r.error == RangeError
  {
    match DateTimeString(date + "T" + time)
    case None => Err(RangeError)
    case Some(t) => Ok(t + MsPerHour)
  }

  function ToEvent(b: Booking): Result<Event, JsError> {
    match CalculateEndTime(b.date, b.time)
    case Err(e) => Err(e)
    case Ok(end) => Ok(Event(b.id, b.name + " - " + b.service, b.date + "T" + b.time, end, b))
  }

  /** `bookings.map(...)`, which throws at the first booking whose end cannot be computed. */
  function ToEvents(bs: seq<Booking>): (r: Result<seq<Event>, JsError>)
    ensures r.Ok? ==> |r.value| == |bs|
  {
    if bs == [] then Ok([])
    else match ToEvent(bs[0])
      case Err(e) => Err(e)
      case Ok(ev) =>
        match ToEvents(bs[1..])
        case Err(e) => Err(e)
        case Ok(rest) => Ok([ev] + rest)
  }

  /** `new Date(event.start).getTime()`, `None` for `NaN`. */
  function StartOf(e: Event): Option<int> {
    DateTimeString(e.start)
  }

  /** The event shows booking `b`, starts when `b` does and lasts exactly one hour. */
  predicate EventOf(e: Event, b: Booking) {
    e.id == b.id && e.booking == b && e.start == b.date + "T" + b.time
    && StartOf(e).Some? && e.end == StartOf(e).value + MsPerHour
  }

  /**
   * The conversion succeeds exactly when every booking's date and time form a
   * valid date-time, and then event `i` shows booking `i` for one hour.
   */
  lemma ToEventsOneHour(bs: seq<Booking>)
    ensures ToEvents(bs).Ok? <==>
      forall i :: 0 <= i < |bs| ==> DateTimeString(bs[i].date + "T" + bs[i].time).Some?
    ensures ToEvents(bs).Ok? ==>
      forall i :: 0 <= i < |bs| ==> EventOf(ToEvents(bs).value[i], bs[i])
  {
    ToEventsOk(bs);
    if ToEvents(bs).Ok? {
      ToEventsShowBookings(bs);
    }
  }

  /** The conversion succeeds exactly when every booking has a valid start. */
  lemma {:induction false} ToEventsOk(bs: seq<Booking>)
    ensures ToEvents(bs).Ok? <==>
      forall i :: 0 <= i < |bs| ==> DateTimeString(bs[i].date + "T" + bs[i].time).Some?
  {
    if bs != [] {
      var tail := bs[1..];
      ToEventsOkStep(bs);
      ToEventsOk(tail);
      assert forall i :: 1 <= i < |bs| ==> bs[i] == tail[i - 1];
    }
  }

  lemma ToEventsOkStep(bs: seq<Booking>)
    requires bs != []
    ensures ToEvents(bs).Ok? <==>
      DateTimeString(bs[0].date + "T" + bs[0].time).Some? && ToEvents(bs[1..]).Ok?
  {
    ToEventOneHour(bs[0]);
  }

  /** A successful conversion puts the event of booking `i` at index `i`. */
  lemma {:induction false} ToEventsShowBookings(bs: seq<Booking>)
    requires ToEvents(bs).Ok?
    ensures forall i :: 0 <= i < |bs| ==> EventOf(ToEvents(bs).value[i], bs[i])
  {
    if bs != [] {
      var tail := bs[1..];
      FirstEventShowsFirst(bs);
      forall i | 1 <= i < |bs| ensures EventOf(ToEvents(bs).value[i], bs[i]) {
        ToEventsShowBookings(tail);
        LaterEventFromTail(bs, i);
      }
    }
  }

  lemma FirstEventShowsFirst(bs: seq<Booking>)
    requires bs != [] && ToEvents(bs).Ok?
    ensures EventOf(ToEvents(bs).value[0], bs[0])
  {
    ToEventOneHour(bs[0]);
  }

  lemma LaterEventFromTail(bs: seq<Booking>, i: int)
    requires 1 <= i < |bs| && ToEvents(bs).Ok?
    ensures ToEvents(bs[1..]).Ok?
    ensures ToEvents(bs).value[i] == ToEvents(bs[1..]).value[i - 1] && bs[i] == bs[1..][i - 1]
  {
  }

  /** One booking: its event exists exactly when its date and time form a valid date-time, and lasts one hour. */
  lemma ToEventOneHour(b: Booking)
    ensures ToEvent(b).Ok? <==> DateTimeString(b.date + "T" + b.time).Some?
    ensures ToEvent(b).Ok? ==> EventOf(ToEvent(b).value, b)
  {
  }

  /* ---------------- the per-date event cache ---------------- */

  /** One entry of `cachedAppointments`: the events of one date, in insertion order. */
  datatype Bucket = Bucket(key: string, events: seq<Event>)

  /** `event.start.split('T')[0]`. */
  function DateKey(e: Event): string {
    BeforeFirst(e.start, 'T')
  }

  /** An event that has a start is filed under the date part of that start. */
  lemma DateKeyIsDatePart(e: Event)
    requires StartOf(e).Some?
    ensures DateKey(e) == e.start[..10]
  {
    var s := e.start;
    ValidDateHasNoT(s[..10]);
    BeforeFirstOfJoin(s[..10], s[11..], 'T');
    assert s == s[..10] + ['T'] + s[11..];
  }

  /** `Object.values(cachedAppointments).flat()`: date keys are not array indices, so insertion order. */
  function Flatten(bs: seq<Bucket>): seq<Event> {
    if bs == [] then [] else bs[0].events + Flatten(bs[1..])
  }

  predicate KeysDistinct(bs: seq<Bucket>) {
    forall i, j :: 0 <= i < j < |bs| ==> bs[i].key != bs[j].key
  }

  /** Every event sits in the bucket of its own date. */
  predicate Keyed(bs: seq<Bucket>) {
    forall i, k :: 0 <= i < |bs| && 0 <= k < |bs[i].events| ==> DateKey(bs[i].events[k]) == bs[i].key
  }

  /** One bucket per date, each event under its own date. */
  predicate Filed(bs: seq<Bucket>) {
    KeysDistinct(bs) && Keyed(bs)
  }

  /** `if (!updated[dateKey]) updated[dateKey] = []; updated[dateKey].push(event)`. */
  function AddEvent(bs: seq<Bucket>, e: Event): seq<Bucket> {
    if bs == [] then [Bucket(DateKey(e), [e])]
    else if bs[0].key == DateKey(e) then [bs[0].(events := bs[0].events + [e])] + bs[1..]
    else [bs[0]] + AddEvent(bs[1..], e)
  }

  /** `rangeEvents.forEach(...)` over the copied map. */
  function AddEvents(bs: seq<Bucket>, es: seq<Event>): seq<Bucket>
    decreases |es|
  {
    if es == [] then bs else AddEvents(AddEvent(bs, es[0]), es[1..])
  }

  /** The keys after filing `e`: the old ones, plus `e`'s date if it was new. */
  lemma {:induction false} AddEventKeySet(bs: seq<Bucket>, e: Event)
    ensures forall k :: k in Keys(AddEvent(bs, e)) <==> k in Keys(bs) || k == DateKey(e)
  {
    if bs != [] {
      var r := AddEvent(bs, e);
      if bs[0].key == DateKey(e) {
        assert r[1..] == bs[1..];
        assert Keys(r) == Keys(bs);
      } else {
        AddEventKeySet(bs[1..], e);
        assert Keys(r) == [bs[0].key] + Keys(AddEvent(bs[1..], e));
        assert Keys(bs) == [bs[0].key] + Keys(bs[1..]);
      }
    }
  }

  /** The buckets' keys after filing `e`: still distinct, the old ones plus `e`'s date if it was new. */
  lemma {:induction false} AddEventKeys(bs: seq<Bucket>, e: Event)
    requires KeysDistinct(bs)
    ensures KeysDistinct(AddEvent(bs, e))
    ensures forall k :: k in Keys(AddEvent(bs, e)) <==> k in Keys(bs) || k == DateKey(e)
  {
    AddEventKeySet(bs, e);
    if bs != [] && bs[0].key != DateKey(e) {
      var tail := AddEvent(bs[1..], e);
      AddEventKeys(bs[1..], e);
      var r := [bs[0]] + tail;
      assert AddEvent(bs, e) == r;
      assert bs[0].key !in Keys(bs[1..]) by {
        forall j | 0 <= j < |bs[1..]| ensures Keys(bs[1..])[j] != bs[0].key {
          assert bs[1..][j] == bs[j + 1];
        }
      }
      assert bs[0].key !in Keys(tail);
      forall i, j | 0 <= i < j < |r| ensures r[i].key != r[j].key {
        assert r[j] == tail[j - 1];
        assert Keys(tail)[j - 1] == r[j].key;
        if i > 0 {
          assert r[i] == tail[i - 1];
        }
      }
    } else if bs != [] {
      var r := AddEvent(bs, e);
      assert r[1..] == bs[1..];
      forall i, j | 0 <= i < j < |r| ensures r[i].key != r[j].key {
        assert r[i].key == bs[i].key && r[j].key == bs[j].key;
      }
    }
  }

  lemma {:induction false} AddEventKeyed(bs: seq<Bucket>, e: Event)
    requires Keyed(bs)
    ensures Keyed(AddEvent(bs, e))
  {
    if bs != [] && bs[0].key != DateKey(e) {
      var tail := AddEvent(bs[1..], e);
      AddEventKeyed(bs[1..], e);
      var r := AddEvent(bs, e);
      forall i, k | 0 < i < |r| && 0 <= k < |r[i].events| ensures DateKey(r[i].events[k]) == r[i].key {
        assert r[i] == tail[i - 1];
      }
    }
  }

  lemma {:induction false} AddEventKeepsEvents(bs: seq<Bucket>, e: Event)
    ensures multiset(Flatten(AddEvent(bs, e))) == multiset(Flatten(bs)) + multiset{e}
  {
    var r := AddEvent(bs, e);
    if bs == [] {
      assert Flatten(r) == [e] + Flatten([]);
    } else if bs[0].key == DateKey(e) {
      assert r[1..] == bs[1..];
      assert Flatten(r) == (bs[0].events + [e]) + Flatten(bs[1..]);
    } else {
      AddEventKeepsEvents(bs[1..], e);
      assert r[1..] == AddEvent(bs[1..], e);
    }
  }

  function Keys(bs: seq<Bucket>): (ks: seq<string>)
    ensures |ks| == |bs| && forall i :: 0 <= i < |bs| ==> ks[i] == bs[i].key
  {
    if bs == [] then [] else [bs[0].key] + Keys(bs[1..])
  }

  /** Filing events keeps the buckets one per date and each event under its date. */
  lemma {:induction false} AddEventsFiled(bs: seq<Bucket>, es: seq<Event>)
    requires Filed(bs)
    ensures Filed(AddEvents(bs, es))
    decreases |es|
  {
    if es != [] {
      AddEventKeys(bs, es[0]);
      AddEventKeyed(bs, es[0]);
      AddEventsFiled(AddEvent(bs, es[0]), es[1..]);
    }
  }

  /** Filing events loses and invents none. */
  lemma {:induction false} AddEventsKeepEvents(bs: seq<Bucket>, es: seq<Event>)
    ensures multiset(Flatten(AddEvents(bs, es))) == multiset(Flatten(bs)) + multiset(es)
    decreases |es|
  {
    if es != [] {
      var next := AddEvent(bs, es[0]);
      assert multiset(Flatten(AddEvents(bs, es))) == multiset(Flatten(next)) + multiset(es[1..]) by {
        assert AddEvents(bs, es) == AddEvents(next, es[1..]);
        AddEventsKeepEvents(next, es[1..]);
      }
      assert multiset(Flatten(next)) == multiset(Flatten(bs)) + multiset{es[0]} by {
        AddEventKeepsEvents(bs, es[0]);
      }
      assert multiset(es) == multiset{es[0]} + multiset(es[1..]) by {
        assert es == [es[0]] + es[1..];
      }
    }
  }

  /**
   * Filing events keeps the buckets one per date and each event under its
   * date, and loses and invents nothing.
   */
  lemma AddEventsFacts(bs: seq<Bucket>, es: seq<Event>)
    requires KeysDistinct(bs) && Keyed(bs)
    ensures KeysDistinct(AddEvents(bs, es)) && Keyed(AddEvents(bs, es))
    ensures multiset(Flatten(AddEvents(bs, es))) == multiset(Flatten(bs)) + multiset(es)
  {
    AddEventsFiled(bs, es);
    AddEventsKeepEvents(bs, es);
  }

  /* ---------------- the window filter and the de-duplication ---------------- */

  /** `eventTime >= startTime && eventTime <= endTime`; `NaN` fails both. */
  predicate InWindow(e: Event, start: int, end: int) {
    StartOf(e).Some? && start <= StartOf(e).value <= end
  }

  function InRange(es: seq<Event>, start: int, end: int): (r: seq<Event>)
    ensures forall e :: e in r <==> e in es && InWindow(e, start, end)
    ensures |r| <= |es|
  {
    if es == [] then []
    else (if InWindow(es[0], start, end) then [es[0]] else []) + InRange(es[1..], start, end)
  }

  predicate DistinctIds(es: seq<Event>) {
    forall i, j :: 0 <= i < j < |es| ==> es[i].id != es[j].id
  }

  /** `map.set(event.id, event)`: replaces the entry with that id in place, or appends. */
  function Put(m: seq<Event>, e: Event): (r: seq<Event>)
  {
    if m == [] then [e]
    else if m[0].id == e.id then [e] + m[1..]
    else [m[0]] + Put(m[1..], e)
  }

  /** `Array.from(new Map(events.map(e => [e.id, e])).values())`. */
  function DedupById(es: seq<Event>): seq<Event> {
    if es == [] then [] else Put(DedupById(es[..|es| - 1]), es[|es| - 1])
  }

  /** `x` occurs in `es` with no later event of the same id. */
  predicate LastOfId(es: seq<Event>, x: Event) {
    exists i :: 0 <= i < |es| && es[i] == x && forall j :: i < j < |es| ==> es[j].id != x.id
  }

  lemma {:induction false} PutFacts(m: seq<Event>, e: Event)
    requires DistinctIds(m)
    ensures DistinctIds(Put(m, e))
    ensures forall x :: x in Put(m, e) <==> x == e || (x in m && x.id != e.id)
  {
    if m != [] && m[0].id != e.id {
      PutFacts(m[1..], e);
      var r := Put(m, e);
      assert r == [m[0]] + Put(m[1..], e);
      forall j | 0 < j < |r| ensures r[0].id != r[j].id {
        assert r[j] in Put(m[1..], e);
        if r[j] != e {
          var k :| 0 <= k < |m[1..]| && m[1..][k] == r[j];
          assert m[k + 1] == r[j];
        }
      }
      assert m == [m[0]] + m[1..];
    } else if m != [] {
      assert m == [m[0]] + m[1..];
      forall x | x in m[1..] ensures x.id != e.id {
        var k :| 0 <= k < |m[1..]| && m[1..][k] == x;
        assert m[k + 1] == x;
      }
    }
  }

  /** The last-occurrence test, one event appended. */
  lemma LastOfIdStep(init: seq<Event>, e: Event, x: Event)
    ensures LastOfId(init + [e], x) <==> x == e || (LastOfId(init, x) && x.id != e.id)
  {
    var es := init + [e];
    if x == e {
      assert es[|es| - 1] == x;
    } else {
      if LastOfId(es, x) {
        var i :| 0 <= i < |es| && es[i] == x && forall j :: i < j < |es| ==> es[j].id != x.id;
        assert es[|es| - 1] == e && i < |init|;
        assert init[i] == x && x.id != e.id;
        assert forall j :: i < j < |init| ==> init[j] == es[j];
      }
      if LastOfId(init, x) && x.id != e.id {
        var i :| 0 <= i < |init| && init[i] == x && forall j :: i < j < |init| ==> init[j].id != x.id;
        assert es[i] == x;
      }
    }
  }

  /**
   * The de-duplicated events have distinct ids, and an event is kept exactly
   * when no later event has its id: the last occurrence wins.
   */
  lemma {:induction false} DedupLastWins(es: seq<Event>)
    ensures DistinctIds(DedupById(es))
    ensures forall x :: x in DedupById(es) <==> LastOfId(es, x)
  {
    if es != [] {
      var init, e := es[..|es| - 1], es[|es| - 1];
      assert es == init + [e];
      DedupLastWins(init);
      PutFacts(DedupById(init), e);
      forall x ensures x in DedupById(es) <==> LastOfId(es, x) {
        LastOfIdStep(init, e, x);
      }
    }
  }

  /** No id is lost by the de-duplication. */
  lemma {:induction false} DedupKeepsIds(es: seq<Event>, i: int)
    requires 0 <= i < |es|
    ensures exists x :: x in DedupById(es) && x.id == es[i].id
  {
    DedupLastWins(es);
    var k := i;
    while exists j :: k < j < |es| && es[j].id == es[i].id
      invariant i <= k < |es| && es[k].id == es[i].id
      decreases |es| - k
    {
      var j :| k < j < |es| && es[j].id == es[i].id;
      k := j;
    }
    assert LastOfId(es, es[k]);
  }

  /**
   * In `[...cachedEvents, ...fetched]`, an id that was fetched keeps the last
   * fetched event with that id: a fresh event replaces a cached one.
   */
  lemma FreshWins(cached: seq<Event>, fetched: seq<Event>, x: Event)
    requires x in DedupById(cached + fetched)
    requires exists j :: 0 <= j < |fetched| && fetched[j].id == x.id
    ensures LastOfId(fetched, x)
  {
    assert LastOfId(cached + fetched, x) by {
      DedupLastWins(cached + fetched);
    }
    LastInSuffix(cached, fetched, x);
  }

  /** The last event of an id, when the suffix has that id, lies in the suffix and is last there. */
  lemma LastInSuffix(cached: seq<Event>, fetched: seq<Event>, x: Event)
    requires LastOfId(cached + fetched, x)
    requires exists j :: 0 <= j < |fetched| && fetched[j].id == x.id
    ensures LastOfId(fetched, x)
  {
    var all := cached + fetched;
    var i :| 0 <= i < |all| && all[i] == x && forall j :: i < j < |all| ==> all[j].id != x.id;
    var j :| 0 <= j < |fetched| && fetched[j].id == x.id;
    assert all[|cached| + j].id == x.id;
    assert fetched[i - |cached|] == x;
    forall j' | i - |cached| < j' < |fetched| ensures fetched[j'].id != x.id {
      assert all[|cached| + j'] == fetched[j'];
    }
  }

  /* ---------------- fetchBookings ---------------- */

  /**
   * The server as the dashboard calls it: the answer to the `k`-th request of
   * one call for the bookings of day `today`, `None` when the request fails.
   * The imported `getBookings(date)` sends only that date, so no request
   * carries the range it is made for.
   */
  type Server = (nat, int) -> Option<seq<Booking>>

  /** A response made into events, `None` when the request or the conversion threw. */
  function ResponseEvents(response: Option<seq<Booking>>): (r: Option<seq<Event>>)
    ensures r.Some? ==> response.Some? && ToEvents(response.value) == Ok(r.value)
  {
    match response
    case None => None
    case Some(bs) => if ToEvents(bs).Ok? then Some(ToEvents(bs).value) else None
  }

  /** How far the loop over the uncached ranges has got. */
  datatype Progress = Progress(
    ranges: seq<Interval>,
    appointments: seq<Bucket>,
    fetched: seq<Event>,
    ok: bool,
    crashed: bool)

  /** What each request of one call for day `today` yields: its events, `None` where it failed or its conversion threw. */
  function Answers(server: Server, today: int, n: nat): (a: seq<Option<seq<Event>>>)
    ensures |a| == n && forall k :: 0 <= k < n ==> a[k] == ResponseEvents(server(k, today))
  {
    seq(n, k requires 0 <= k < n => ResponseEvents(server(k, today)))
  }

  /**
   * The loop of `fetchBookings` from the `k`-th uncached range on, `answers`
   * being what its requests yield: fetch, convert, cache the range (a
   * throwing state updater crashes the component and leaves the ranges as
   * they were), file the events; the first failure ends the loop.
   */
  function FetchFrom(uncached: seq<Interval>, k: nat, answers: seq<Option<seq<Event>>>, p: Progress): Progress
    requires k <= |uncached| == |answers|
    decreases |uncached| - k
  {
    if k == |uncached| || !p.ok then p
    else match answers[k]
      case None => p.(ok := false)
      case Some(evs) => FetchFrom(uncached, k + 1, answers, Fetched(p, uncached[k], evs))
  }

  /** One successful round of the loop: `range` and its events `evs` join the caches. */
  function Fetched(p: Progress, range: Interval, evs: seq<Event>): Progress {
    var next := CacheAfterAdd(p.ranges, range);
    Progress(if next.Ok? then next.value else p.ranges, AddEvents(p.appointments, evs),
             p.fetched + evs, true, p.crashed || next.Err?)
  }

  lemma {:induction false} CrashSticks(uncached: seq<Interval>, k: nat, answers: seq<Option<seq<Event>>>, p: Progress)
    requires k <= |uncached| == |answers| && p.crashed
    ensures FetchFrom(uncached, k, answers, p).crashed
    decreases |uncached| - k
  {
    if k < |uncached| && p.ok && answers[k].Some? {
      CrashSticks(uncached, k + 1, answers, Fetched(p, uncached[k], answers[k].value));
    }
  }

  /** The loop keeps the event cache one bucket per date, each event under its date. */
  lemma {:induction false} FetchKeepsBuckets(uncached: seq<Interval>, k: nat, answers: seq<Option<seq<Event>>>, p: Progress)
    requires k <= |uncached| == |answers| && Filed(p.appointments)
    ensures Filed(FetchFrom(uncached, k, answers, p).appointments)
    decreases |uncached| - k
  {
    if k < |uncached| && p.ok && answers[k].Some? {
      var evs := answers[k].value;
      var p' := Fetched(p, uncached[k], evs);
      assert p'.appointments == AddEvents(p.appointments, evs);
      AddEventsFiled(p.appointments, evs);
      FetchKeepsBuckets(uncached, k + 1, answers, p');
    }
  }

  /** Some range of `ranges` holds the instant `t`. */
  predicate Holds(ranges: seq<Interval>, t: int) {
    exists r :: r in ranges && ContainsInstant(r, t)
  }

  /**
   * When every request succeeds and nothing crashes, every instant that the
   * cache or one of the remaining uncached ranges held is held by the cache
   * the loop leaves behind.
   */
  lemma {:induction false} FetchCachesRanges(uncached: seq<Interval>, k: nat, answers: seq<Option<seq<Event>>>, p: Progress, t: int)
    requires k <= |uncached| == |answers|
    requires Holds(p.ranges, t) || Holds(uncached[k..], t)
    ensures var q := FetchFrom(uncached, k, answers, p);
      q.ok && !q.crashed ==> Holds(q.ranges, t)
    decreases |uncached| - k
  {
    if k < |uncached| && p.ok && answers[k].Some? {
      var p' := Fetched(p, uncached[k], answers[k].value);
      if CacheAfterAdd(p.ranges, uncached[k]).Err? {
        CrashSticks(uncached, k + 1, answers, p');
      } else {
        assert uncached[k..] == [uncached[k]] + uncached[k + 1..];
        if ContainsInstant(uncached[k], t) || Holds(p.ranges, t) {
          AddKeepsCoverage(p.ranges, uncached[k], t);
        }
        FetchCachesRanges(uncached, k + 1, answers, p', t);
      }
    }
  }

  /**
   * The `setCachedAppointments` updater: files each event under its date in
   * a copy of the previous buckets.
   */
  method FileEvents(prev: seq<Bucket>, evs: seq<Event>) returns (updated: seq<Bucket>)
    ensures updated == AddEvents(prev, evs)
  {
    updated := prev;
    for i := 0 to |evs|
      invariant AddEvents(updated, evs[i..]) == AddEvents(prev, evs)
    {
      assert evs[i..][1..] == evs[i + 1..];
      updated := AddEvent(updated, evs[i]);
    }
  }

  /**
   * The `for (const range of uncachedRanges)` loop of `fetchBookings`, from
   * the state `initial`; the state updates it queues are applied in order.
   */
  method FetchRanges(uncached: seq<Interval>, today: int, server: Server, initial: Progress) returns (p: Progress)
    requires initial.ok
    ensures p == FetchFrom(uncached, 0, Answers(server, today, |uncached|), initial)
  {
    ghost var answers := Answers(server, today, |uncached|);
    p := initial;
    for k := 0 to |uncached|
      invariant p.ok
      invariant FetchFrom(uncached, k, answers, p) == FetchFrom(uncached, 0, answers, initial)
    {
      var rangeEvents := ResponseEvents(server(k, today));
      if rangeEvents.None? {
        return p.(ok := false);
      }
      var next := AddRangeToCache(p.ranges, uncached[k]);
      var appointments := FileEvents(p.appointments, rangeEvents.value);
      p := Progress(if next.Ok? then next.value else p.ranges, appointments,
                    p.fetched + rangeEvents.value, true, p.crashed || next.Err?);
    }
  }

  /** The React state of the dashboard's calendar. */
  class Dashboard {
    var cachedDateRanges: seq<Interval>
    var cachedAppointments: seq<Bucket>
    var events: seq<Event>
    var lastFetchTime: Option<int>
    /** A state updater threw while React rendered; with no error boundary that unmounts the dashboard. */
    var crashed: bool

    /** One bucket per date, each event under its own date. */
    ghost predicate Valid()
      reads this
    {
      Filed(cachedAppointments)
    }

    constructor()
      ensures Valid()
      ensures cachedDateRanges == [] && cachedAppointments == [] && events == []
      ensures lastFetchTime == None && !crashed
    {
      cachedDateRanges := [];
      cachedAppointments := [];
      events := [];
      lastFetchTime := None;
      crashed := false;
    }

    /**
     * `fetchBookings({ start, end }, forceRefresh)` at instant `now`. A forced
     * refresh shows the response and leaves the cache alone; a covered window
     * is filled from the cache; otherwise the uncached ranges are fetched and
     * cached, and the window shows the cached events of the window (as they
     * were when the call began) and the fetched ones, de-duplicated by id.
     * A failed request or conversion leaves the events and the fetch time.
     */
    method FetchBookings(start: int, end: int, forceRefresh: bool, now: int, server: Server)
      requires Valid()
      modifies this
      ensures Valid()
      ensures forceRefresh ==>
        var r := ResponseEvents(server(0, DayOf(now)));
        cachedDateRanges == old(cachedDateRanges) && cachedAppointments == old(cachedAppointments)
        && crashed == old(crashed)
        && events == (if r.Some? then r.value else old(events))
        && lastFetchTime == (if r.Some? then Some(now) else old(lastFetchTime))
      ensures !forceRefresh && UncachedSubRanges(old(cachedDateRanges), start, end) == [] ==>
        cachedDateRanges == old(cachedDateRanges) && cachedAppointments == old(cachedAppointments)
        && crashed == old(crashed) && lastFetchTime == old(lastFetchTime)
        && events == InRange(Flatten(old(cachedAppointments)), start, end)
      ensures !forceRefresh && UncachedSubRanges(old(cachedDateRanges), start, end) != [] ==>
        var uncached := UncachedSubRanges(old(cachedDateRanges), start, end);
        var p := FetchFrom(uncached, 0, Answers(server, DayOf(now), |uncached|),
                           Progress(old(cachedDateRanges), old(cachedAppointments), [], true, old(crashed)));
        cachedDateRanges == p.ranges && cachedAppointments == p.appointments && crashed == p.crashed
        && events == (if p.ok then DedupById(InRange(Flatten(old(cachedAppointments)), start, end) + p.fetched)
                      else old(events))
        && lastFetchTime == (if p.ok then Some(now) else old(lastFetchTime))
    {
      if forceRefresh {
        var calendarEvents := ResponseEvents(server(0, DayOf(now)));
        if calendarEvents.Some? {
          events := calendarEvents.value;
          lastFetchTime := Some(now);
        }
        return;
      }
      var uncachedRanges := GetUncachedSubRanges(cachedDateRanges, start, end);
      if |uncachedRanges| == 0 {
        events := InRange(Flatten(cachedAppointments), start, end);
        return;
      }
      FetchUncached(uncachedRanges, start, end, now, server);
    }

    /** The part of `fetchBookings` that fetches the uncached ranges and caches them. */
    method FetchUncached(uncached: seq<Interval>, start: int, end: int, now: int, server: Server)
      requires Valid()
      modifies this
      ensures Valid()
      ensures var p := FetchFrom(uncached, 0, Answers(server, DayOf(now), |uncached|),
                                 Progress(old(cachedDateRanges), old(cachedAppointments), [], true, old(crashed)));
        cachedDateRanges == p.ranges && cachedAppointments == p.appointments && crashed == p.crashed
        && events == (if p.ok then DedupById(InRange(Flatten(old(cachedAppointments)), start, end) + p.fetched)
                      else old(events))
        && lastFetchTime == (if p.ok then Some(now) else old(lastFetchTime))
    {
      // the closure reads the state as it was when the call began
      var snapshot := cachedAppointments;
      var p := FetchRanges(uncached, DayOf(now), server,
                           Progress(cachedDateRanges, cachedAppointments, [], true, crashed));
      FetchKeepsBuckets(uncached, 0, Answers(server, DayOf(now), |uncached|),
                        Progress(cachedDateRanges, cachedAppointments, [], true, crashed));
      cachedDateRanges, cachedAppointments, crashed := p.ranges, p.appointments, p.crashed;
      if p.ok {
        var cachedEvents := InRange(Flatten(snapshot), start, end);
        events := DedupById(cachedEvents + p.fetched);
        lastFetchTime := Some(now);
      }
    }
  }
}
