/**
 * The date-range cache of the hair artist's dashboard: which instants have
 * been fetched already, which parts of a requested window still have to be
 * fetched, and how a fetched range joins the cache. The helper closures read
 * a snapshot of the React state, so they take it as a parameter here.
 */
module DashboardRanges {
  import opened Wrappers
  import opened Text
  import opened Dates
  import opened Sorting

  predicate WellFormed(r: Interval) {
    r.start <= r.end
  }

  predicate AllWellFormed(rs: seq<Interval>) {
    forall r :: r in rs ==> WellFormed(r)
  }

  /** `start >= cached.start && end <= cached.end`. */
  predicate ContainsRange(r: Interval, start: int, end: int) {
    r.start <= start && end <= r.end
  }

  predicate ContainsInstant(r: Interval, t: int) {
    r.start <= t <= r.end
  }

  /** Some single cached range holds the whole request. */
  predicate Covered(cached: seq<Interval>, start: int, end: int) {
    exists i :: 0 <= i < |cached| && ContainsRange(cached[i], start, end)
  }

  /* ---------------- isDateRangeCached ---------------- */

  method IsDateRangeCached(cached: seq<Interval>, start: int, end: int) returns (b: bool)
    ensures b <==> Covered(cached, start, end)
    ensures cached == [] ==> !b
  {
    if |cached| == 0 {
      return false;
    }
    for i := 0 to |cached|
      invariant forall j :: 0 <= j < i ==> !ContainsRange(cached[j], start, end)
    {
      if start >= cached[i].start && end <= cached[i].end {
        return true;
      }
    }
    return false;
  }

  /** Two ranges that only touch never cover a request that spans both. */
  lemma TouchingRangesNotCombined(a: int, b: int, c: int)
    requires a < b < c
    ensures !Covered([Interval(a, b), Interval(b, c)], a, c)
  {
    var cached := [Interval(a, b), Interval(b, c)];
    forall i | 0 <= i < 2 ensures !ContainsRange(cached[i], a, c) {
    }
  }

  /* ---------------- getUncachedSubRanges ---------------- */

  /**
   * From range `i` of `rs` on, with the running start `cur`: the gap between
   * each consecutive pair (emitted only when it is not empty), then the gap
   * after the last range.
   */
  function GapsFrom(rs: seq<Interval>, i: nat, cur: int, end: int): seq<Interval>
    requires i < |rs|
    decreases |rs| - i
  {
    if i == |rs| - 1 then
      (if cur < end && rs[i].end < end then [Interval(Max(cur, rs[i].end), end)] else [])
    else
      var gapStart, gapEnd := Max(cur, rs[i].end), Min(end, rs[i + 1].start);
      (if gapStart < gapEnd then [Interval(gapStart, gapEnd)] else [])
        + GapsFrom(rs, i + 1, Max(cur, rs[i + 1].end), end)
  }

  /** The sub-ranges found for a non-empty cache sorted by start. */
  function SortedGaps(sorted: seq<Interval>, start: int, end: int): seq<Interval>
    requires sorted != []
  {
    if start < sorted[0].start && end > sorted[0].start then
      [Interval(start, Min(end, sorted[0].start))] + GapsFrom(sorted, 0, sorted[0].end, end)
    else
      GapsFrom(sorted, 0, start, end)
  }

  /** The sub-ranges `getUncachedSubRanges(start, end)` returns for the cache `cached`. */
  function UncachedSubRanges(cached: seq<Interval>, start: int, end: int): seq<Interval> {
    if |cached| == 0 then [Interval(start, end)]
    else if Covered(cached, start, end) then []
    else SortedGaps(SortIntervals(cached), start, end)
  }

  /** Some range of `rs` holds the instant `t` (end excluded). */
  predicate InSome(rs: seq<Interval>, t: int) {
    exists k :: 0 <= k < |rs| && rs[k].start <= t < rs[k].end
  }

  method GetUncachedSubRanges(cached: seq<Interval>, start: int, end: int) returns (subRanges: seq<Interval>)
    ensures subRanges == UncachedSubRanges(cached, start, end)
    ensures cached == [] ==> subRanges == [Interval(start, end)]
    ensures Covered(cached, start, end) && cached != [] ==> subRanges == []
  {
    if |cached| == 0 {
      return [Interval(start, end)];
    }
    var covered := IsDateRangeCached(cached, start, end);
    if covered {
      return [];
    }
    var sortedRanges := SortIntervals(cached);
    assert |sortedRanges| == |multiset(sortedRanges)| == |cached|;
    subRanges := [];
    var currentStart := start;
    if currentStart < sortedRanges[0].start && end > sortedRanges[0].start {
      subRanges := subRanges + [Interval(currentStart, Min(end, sortedRanges[0].start))];
      currentStart := sortedRanges[0].end;
    }
    var gaps := CollectGaps(sortedRanges, currentStart, end);
    subRanges := subRanges + gaps;
  }

  /** The gap-finding loop and the trailing gap of `getUncachedSubRanges`. */
  method CollectGaps(sortedRanges: seq<Interval>, start: int, end: int) returns (subRanges: seq<Interval>)
    requires |sortedRanges| >= 1
    ensures subRanges == GapsFrom(sortedRanges, 0, start, end)
  {
    subRanges := [];
    var currentStart := start;
    var i := 0;
    while i < |sortedRanges| - 1
      invariant 0 <= i <= |sortedRanges| - 1
      invariant subRanges + GapsFrom(sortedRanges, i, currentStart, end) == GapsFrom(sortedRanges, 0, start, end)
    {
      var gapStart := Max(currentStart, sortedRanges[i].end);
      var gapEnd := Min(end, sortedRanges[i + 1].start);
      ghost var gap := if gapStart < gapEnd then [Interval(gapStart, gapEnd)] else [];
      ghost var rest := GapsFrom(sortedRanges, i + 1, Max(currentStart, sortedRanges[i + 1].end), end);
      assert GapsFrom(sortedRanges, i, currentStart, end) == gap + rest;
      assert subRanges + (gap + rest) == (subRanges + gap) + rest;
      if gapStart < gapEnd {
        subRanges := subRanges + [Interval(gapStart, gapEnd)];
      }
      currentStart := Max(currentStart, sortedRanges[i + 1].end);
      i := i + 1;
    }
    var lastRange := sortedRanges[|sortedRanges| - 1];
    if currentStart < end && lastRange.end < end {
      subRanges := subRanges + [Interval(Max(currentStart, lastRange.end), end)];
    }
  }

  /** Every range of `rs` is a non-empty part of `[start, end]`. */
  predicate AllInside(rs: seq<Interval>, start: int, end: int) {
    forall k :: 0 <= k < |rs| ==> start <= rs[k].start < rs[k].end <= end
  }

  lemma {:induction false} GapsInside(rs: seq<Interval>, i: nat, cur: int, start: int, end: int)
    requires i < |rs| && AllWellFormed(rs) && start <= cur
    ensures AllInside(GapsFrom(rs, i, cur, end), start, end)
    decreases |rs| - i
  {
    if i < |rs| - 1 {
      GapsInside(rs, i + 1, Max(cur, rs[i + 1].end), start, end);
    }
  }

  lemma SortedGapsInside(sorted: seq<Interval>, start: int, end: int)
    requires sorted != [] && AllWellFormed(sorted)
    ensures AllInside(SortedGaps(sorted, start, end), start, end)
  {
    assert sorted[0] in sorted;
    if start < sorted[0].start && end > sorted[0].start {
      var lead := [Interval(start, Min(end, sorted[0].start))];
      var rest := GapsFrom(sorted, 0, sorted[0].end, end);
      GapsInside(sorted, 0, sorted[0].end, start, end);
      assert SortedGaps(sorted, start, end) == lead + rest;
    } else {
      GapsInside(sorted, 0, start, start, end);
    }
  }

  /**
   * With a well-formed, non-empty cache every returned sub-range is a
   * non-empty part of the request.
   */
  lemma SubRangesInsideRequest(cached: seq<Interval>, start: int, end: int)
    requires cached != [] && AllWellFormed(cached)
    ensures AllInside(UncachedSubRanges(cached, start, end), start, end)
  {
    if !Covered(cached, start, end) {
      SortedIntervalsFacts(cached);
      SortedGapsInside(SortIntervals(cached), start, end);
    }
  }

  lemma {:induction false} GapsBeforeAll(rs: seq<Interval>, i: nat, cur: int, end: int)
    requires i < |rs|
    requires forall r :: r in rs ==> end <= r.start <= r.end
    ensures GapsFrom(rs, i, cur, end) == []
    decreases |rs| - i
  {
    assert rs[i] in rs;
    if i < |rs| - 1 {
      assert rs[i + 1] in rs;
      GapsBeforeAll(rs, i + 1, Max(cur, rs[i + 1].end), end);
    }
  }

  /**
   * A request that ends before every cached range starts yields no sub-range
   * at all: the leading gap needs `end > first.start` and the trailing one
   * needs `last.end < end`.
   */
  lemma RequestBeforeCacheYieldsNothing(cached: seq<Interval>, start: int, end: int)
    requires cached != [] && AllWellFormed(cached)
    requires forall r :: r in cached ==> end <= r.start
    ensures UncachedSubRanges(cached, start, end) == []
  {
    if !Covered(cached, start, end) {
      var sorted := SortIntervals(cached);
      SortedIntervalsFacts(cached);
      assert sorted[0] in sorted;
      GapsBeforeAll(sorted, 0, start, end);
    }
  }

  lemma {:induction false} GapsCover(rs: seq<Interval>, i: nat, cur: int, end: int, t: int)
    requires i < |rs|
    requires cur <= t < end && rs[i].start <= t
    requires forall r :: r in rs ==> !ContainsInstant(r, t)
    ensures exists k :: 0 <= k < |GapsFrom(rs, i, cur, end)|
                        && GapsFrom(rs, i, cur, end)[k].start <= t < GapsFrom(rs, i, cur, end)[k].end
    decreases |rs| - i
  {
    assert rs[i] in rs;
    var gaps := GapsFrom(rs, i, cur, end);
    if i == |rs| - 1 {
      assert gaps[0].start <= t;
    } else {
      assert rs[i + 1] in rs;
      var gapStart, gapEnd := Max(cur, rs[i].end), Min(end, rs[i + 1].start);
      var gap := if gapStart < gapEnd then [Interval(gapStart, gapEnd)] else [];
      var rest := GapsFrom(rs, i + 1, Max(cur, rs[i + 1].end), end);
      assert gaps == gap + rest;
      if t < rs[i + 1].start {
        assert gaps[0] == gap[0];
      } else {
        GapsCover(rs, i + 1, Max(cur, rs[i + 1].end), end, t);
        var k :| 0 <= k < |rest| && rest[k].start <= t < rest[k].end;
        assert gaps[|gap| + k] == rest[k];
      }
    }
  }

  lemma SortedGapsCover(sorted: seq<Interval>, start: int, end: int, t: int)
    requires sorted != [] && sorted[0].start < end
    requires start <= t < end
    requires forall r :: r in sorted ==> !ContainsInstant(r, t)
    ensures InSome(SortedGaps(sorted, start, end), t)
  {
    assert sorted[0] in sorted;
    var subs := SortedGaps(sorted, start, end);
    if start < sorted[0].start && end > sorted[0].start {
      var lead := [Interval(start, Min(end, sorted[0].start))];
      var rest := GapsFrom(sorted, 0, sorted[0].end, end);
      assert subs == lead + rest;
      if t < sorted[0].start {
        assert subs[0] == lead[0];
      } else {
        GapsCover(sorted, 0, sorted[0].end, end, t);
        var k :| 0 <= k < |rest| && rest[k].start <= t < rest[k].end;
        assert subs[1 + k] == rest[k];
      }
    } else {
      GapsCover(sorted, 0, start, end, t);
    }
  }

  /**
   * When the request reaches past the start of some cached range, every
   * instant of `[start, end)` that no cached range holds lies in a returned
   * sub-range.
   */
  lemma UncachedInstantsFetched(cached: seq<Interval>, start: int, end: int, t: int)
    requires exists r :: r in cached && r.start < end
    requires start <= t < end
    requires forall r :: r in cached ==> !ContainsInstant(r, t)
    ensures InSome(UncachedSubRanges(cached, start, end), t)
  {
    var w :| w in cached && w.start < end;
    if Covered(cached, start, end) {
      var i :| 0 <= i < |cached| && ContainsRange(cached[i], start, end);
      assert ContainsInstant(cached[i], t);
      assert false;
    }
    SortedIntervalsFacts(cached);
    SortedGapsCover(SortIntervals(cached), start, end, t);
  }

  /* ---------------- addRangeToCache ---------------- */

  /**
   * The first test of `overlaps`, on the `yyyy-MM-dd` strings of the two
   * ranges. When it fails, the second test calls `getTime()` on a string,
   * which throws a TypeError, so `overlaps` is never false.
   */
  predicate DaysOverlap(range: Interval, newRange: Interval) {
    DayOf(newRange.start) <= DayOf(range.end) && DayOf(newRange.end) >= DayOf(range.start)
  }

  /** `{ start: min of the starts, end: max of the ends }`. */
  function Hull(a: Interval, b: Interval): (h: Interval)
    ensures h.start <= a.start && h.start <= b.start && a.end <= h.end && b.end <= h.end
    ensures (h.start == a.start || h.start == b.start) && (h.end == a.end || h.end == b.end)
  {
    Interval(Min(a.start, b.start), Max(a.end, b.end))
  }

  /** The cache the state updater of `addRangeToCache(newRange)` computes from `prev`. */
  function CacheAfterAdd(prev: seq<Interval>, newRange: Interval): Result<seq<Interval>, JsError> {
    if prev == [] then Ok([newRange])
    else if !DaysOverlap(prev[0], newRange) then Err(TypeError)
    else Ok(prev[0 := Hull(prev[0], newRange)])
  }

  method AddRangeToCache(prevRanges: seq<Interval>, newRange: Interval) returns (r: Result<seq<Interval>, JsError>)
    ensures r == CacheAfterAdd(prevRanges, newRange)
    ensures prevRanges == [] ==> r == Ok([newRange])
    ensures prevRanges != [] && !DaysOverlap(prevRanges[0], newRange) ==> r == Err(TypeError)
    ensures r.Ok? && prevRanges != [] ==>
      |r.value| == |prevRanges| && r.value[0] == Hull(prevRanges[0], newRange)
      && forall j :: 1 <= j < |prevRanges| ==> r.value[j] == prevRanges[j]
  {
    var ranges := prevRanges;
    var merged := false;
    for i := 0 to |ranges|
      invariant i == 0 && ranges == prevRanges && !merged
    {
      var range := ranges[i];
      if !DaysOverlap(range, newRange) {
        // the second test of `overlaps` throws
        return Err(TypeError);
      }
      ranges := ranges[i := Hull(range, newRange)];
      merged := true;
      break;
    }
    if !merged {
      assert prevRanges == [];
      ranges := ranges + [newRange];
      assert ranges == [newRange];
    } else {
      assert prevRanges != [] && DaysOverlap(prevRanges[0], newRange);
      assert ranges == prevRanges[0 := Hull(prevRanges[0], newRange)];
    }
    return Ok(ranges);
  }

  /**
   * Whenever the update succeeds, every instant the old cache or the new
   * range held is still held by some range of the new cache.
   */
  lemma AddKeepsCoverage(prev: seq<Interval>, newRange: Interval, t: int)
    requires CacheAfterAdd(prev, newRange).Ok?
    requires ContainsInstant(newRange, t) || exists r :: r in prev && ContainsInstant(r, t)
    ensures exists r :: r in CacheAfterAdd(prev, newRange).value && ContainsInstant(r, t)
  {
    var next := CacheAfterAdd(prev, newRange).value;
    if prev == [] {
      assert next[0] == newRange;
    } else if ContainsInstant(newRange, t) {
      assert next[0] == Hull(prev[0], newRange) && next[0] in next;
    } else {
      var r :| r in prev && ContainsInstant(r, t);
      var j :| 0 <= j < |prev| && prev[j] == r;
      if j == 0 {
        assert next[0] == Hull(prev[0], newRange) && next[0] in next;
      } else {
        assert next[j] == r && next[j] in next;
      }
    }
  }
}
