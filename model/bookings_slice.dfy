/**
 * The `bookings` slice of the Redux store: the list of cached date ranges,
 * kept merged by `mergeDateRanges`, and the reducers of its actions. Range
 * endpoints are kept as the caller gave them (date strings or `Date`s) and
 * compared as instants.
 */
module BookingsSlice {
  import opened Wrappers
  import opened Text
  import opened Dates
  import opened Sorting
  import opened Records

  /* ---------------- mergeDateRanges ---------------- */

  /** `start <= end` as instants. */
  predicate WellFormed(s: Span) {
    Millis(s.start) <= Millis(s.end)
  }

  predicate AllWellFormed(rs: seq<Span>) {
    forall i :: 0 <= i < |rs| ==> WellFormed(rs[i])
  }

  /** The coalescing test: `next` starts no later than one day after `current` ends. */
  predicate Touches(current: Span, next: Span) {
    Millis(current.end) >= Millis(next.start) || Millis(current.end) + MsPerDay >= Millis(next.start)
  }

  /** `new Date(a.end) > new Date(b.end) ? a.end : b.end`. */
  function LaterEnd(a: Span, b: Span): (e: DateValue)
    ensures Millis(e) >= Millis(a.end) && Millis(e) >= Millis(b.end)
    ensures e == a.end || e == b.end
  {
    if Millis(a.end) > Millis(b.end) then a.end else b.end
  }

  /**
   * The first loop from index `i` on, with the range `current` being grown:
   * touching ranges are coalesced, and each finished range is emitted.
   */
  function CoalesceFrom(rs: seq<Span>, i: nat, current: Span): (r: seq<Span>)
    requires 1 <= i <= |rs|
    ensures 1 <= |r| <= |rs| - i + 1
    decreases |rs| - i
  {
    if i == |rs| then [current]
    else if Touches(current, rs[i]) then CoalesceFrom(rs, i + 1, Span(current.start, LaterEnd(current, rs[i])))
    else [current] + CoalesceFrom(rs, i + 1, rs[i])
  }

  /** The new range meets `r`, with no tolerance. */
  predicate Overlaps(newRange: Span, r: Span) {
    Millis(newRange.end) >= Millis(r.start) && Millis(newRange.start) <= Millis(r.end)
  }

  /** The new range ends before `r` starts. */
  predicate Precedes(newRange: Span, r: Span) {
    Millis(newRange.end) < Millis(r.start)
  }

  /** `r` widened to take in the new range, keeping whichever endpoint values reach further. */
  function Widen(r: Span, newRange: Span): (w: Span)
    ensures Millis(w.start) <= Millis(r.start) && Millis(w.start) <= Millis(newRange.start)
    ensures Millis(w.end) >= Millis(r.end) && Millis(w.end) >= Millis(newRange.end)
    ensures (w.start == r.start || w.start == newRange.start) && (w.end == r.end || w.end == newRange.end)
  {
    Span(if Millis(newRange.start) < Millis(r.start) then newRange.start else r.start,
         if Millis(newRange.end) > Millis(r.end) then newRange.end else r.end)
  }

  /**
   * The second loop from index `i` on: merge into the first range the new
   * range meets, or insert it before the first range it precedes, or append.
   */
  function InsertFrom(rs: seq<Span>, i: nat, newRange: Span): seq<Span>
    requires i <= |rs|
    decreases |rs| - i
  {
    if i == |rs| then rs + [newRange]
    else if Overlaps(newRange, rs[i]) then rs[i := Widen(rs[i], newRange)]
    else if Precedes(newRange, rs[i]) then rs[..i] + [newRange] + rs[i..]
    else InsertFrom(rs, i + 1, newRange)
  }

  /** The existing ranges, sorted by start and coalesced. */
  function Coalesced(ranges: seq<Span>): seq<Span>
    requires ranges != []
  {
    SortedSpansFacts(ranges);
    var sorted := SortSpans(ranges);
    CoalesceFrom(sorted, 1, sorted[0])
  }

  /** What `mergeDateRanges(ranges, newRange)` returns. */
  function Merged(ranges: seq<Span>, newRange: Span): seq<Span> {
    if ranges == [] then [newRange] else InsertFrom(Coalesced(ranges), 0, newRange)
  }

  method MergeDateRanges(ranges: seq<Span>, newRange: Span) returns (r: seq<Span>)
    ensures r == Merged(ranges, newRange)
    ensures ranges == [] ==> r == [newRange]
  {
    if |ranges| == 0 {
      return [newRange];
    }
    var sortedRanges := SortSpans(ranges);
    SortedSpansFacts(ranges);
    var result := CoalesceSorted(sortedRanges);
    r := InsertRange(result, newRange);
  }

  /** The first loop of `mergeDateRanges`, over the sorted copy. */
  method CoalesceSorted(sortedRanges: seq<Span>) returns (result: seq<Span>)
    requires sortedRanges != []
    ensures result == CoalesceFrom(sortedRanges, 1, sortedRanges[0])
  {
    result := [];
    var current := sortedRanges[0];
    for i := 1 to |sortedRanges|
      invariant result + CoalesceFrom(sortedRanges, i, current) == CoalesceFrom(sortedRanges, 1, sortedRanges[0])
    {
      var next := sortedRanges[i];
      if Touches(current, next) {
        current := Span(current.start, LaterEnd(current, next));
      } else {
        assert result + ([current] + CoalesceFrom(sortedRanges, i + 1, next))
            == (result + [current]) + CoalesceFrom(sortedRanges, i + 1, next);
        result := result + [current];
        current := next;
      }
    }
    result := result + [current];
  }

  /** The second loop of `mergeDateRanges`: places the new range. */
  method InsertRange(result: seq<Span>, newRange: Span) returns (r: seq<Span>)
    ensures r == InsertFrom(result, 0, newRange)
  {
    for i := 0 to |result|
      invariant InsertFrom(result, i, newRange) == InsertFrom(result, 0, newRange)
    {
      var range := result[i];
      if Overlaps(newRange, range) {
        return result[i := Widen(range, newRange)];
      }
      if Precedes(newRange, range) {
        return result[..i] + [newRange] + result[i..];
      }
    }
    return result + [newRange];
  }

  /* ---- the merged list is sorted ---- */

  /** Consecutive ranges are more than a day apart: what the coalescing leaves. */
  predicate Separated(rs: seq<Span>) {
    forall j :: 0 <= j < |rs| - 1 ==> Millis(rs[j].end) + MsPerDay < Millis(rs[j + 1].start)
  }

  lemma {:induction false} CoalesceSeparated(rs: seq<Span>, i: nat, current: Span)
    requires 1 <= i <= |rs| && SpansSorted(rs) && AllWellFormed(rs) && WellFormed(current)
    ensures Separated(CoalesceFrom(rs, i, current)) && AllWellFormed(CoalesceFrom(rs, i, current))
    ensures CoalesceFrom(rs, i, current)[0].start == current.start
    decreases |rs| - i
  {
    if i < |rs| {
      if Touches(current, rs[i]) {
        CoalesceSeparated(rs, i + 1, Span(current.start, LaterEnd(current, rs[i])));
      } else {
        CoalesceSeparated(rs, i + 1, rs[i]);
        var rest := CoalesceFrom(rs, i + 1, rs[i]);
        var out := [current] + rest;
        forall j | 0 <= j < |out| - 1 ensures Millis(out[j].end) + MsPerDay < Millis(out[j + 1].start) {
          if j > 0 {
            assert out[j] == rest[j - 1] && out[j + 1] == rest[j];
          }
        }
        forall j | 0 <= j < |out| ensures WellFormed(out[j]) {
          if j > 0 {
            assert out[j] == rest[j - 1];
          }
        }
      }
    }
  }

  /** In a separated, well-formed list every range ends more than a day before any later one starts. */
  lemma {:induction false} SeparatedApart(rs: seq<Span>, j: int, k: int)
    requires Separated(rs) && AllWellFormed(rs) && 0 <= j < k < |rs|
    ensures Millis(rs[j].end) + MsPerDay < Millis(rs[k].start)
    decreases k - j
  {
    if j + 1 < k {
      SeparatedApart(rs, j + 1, k);
    }
  }

  lemma SeparatedSorted(rs: seq<Span>)
    requires Separated(rs) && AllWellFormed(rs)
    ensures SpansSorted(rs)
  {
    forall j, k | 0 <= j < k < |rs| ensures Millis(rs[j].start) <= Millis(rs[k].start) {
      SeparatedApart(rs, j, k);
    }
  }

  lemma {:induction false} InsertSorted(rs: seq<Span>, i: nat, newRange: Span)
    requires i <= |rs| && Separated(rs) && AllWellFormed(rs) && WellFormed(newRange)
    requires forall j :: 0 <= j < i ==> Millis(rs[j].end) < Millis(newRange.start)
    ensures SpansSorted(InsertFrom(rs, i, newRange))
    decreases |rs| - i
  {
    SeparatedSorted(rs);
    if i == |rs| {
      AppendSorted(rs, newRange);
    } else if Overlaps(newRange, rs[i]) {
      WidenSorted(rs, i, newRange);
    } else if Precedes(newRange, rs[i]) {
      PlaceBeforeSorted(rs, i, newRange);
    } else {
      InsertSorted(rs, i + 1, newRange);
    }
  }

  /** A range past every cached range goes last. */
  lemma AppendSorted(rs: seq<Span>, newRange: Span)
    requires SpansSorted(rs) && AllWellFormed(rs) && WellFormed(newRange)
    requires forall j :: 0 <= j < |rs| ==> Millis(rs[j].end) < Millis(newRange.start)
    ensures SpansSorted(rs + [newRange])
  {
    var out := rs + [newRange];
    forall j, k | 0 <= j < k < |out| ensures Millis(out[j].start) <= Millis(out[k].start) {
      if k == |rs| {
        assert out[j] == rs[j];
      }
    }
  }

  /** Widening range `i` with an overlapping range past the earlier ones keeps the order. */
  lemma WidenSorted(rs: seq<Span>, i: nat, newRange: Span)
    requires i < |rs| && SpansSorted(rs) && AllWellFormed(rs) && WellFormed(newRange)
    requires forall j :: 0 <= j < i ==> Millis(rs[j].end) < Millis(newRange.start)
    requires Overlaps(newRange, rs[i])
    ensures SpansSorted(rs[i := Widen(rs[i], newRange)])
  {
    var out := rs[i := Widen(rs[i], newRange)];
    forall j, k | 0 <= j < k < |out| ensures Millis(out[j].start) <= Millis(out[k].start) {
      if j == i || k == i {
        assert Millis(out[i].start) <= Millis(rs[i].start);
      }
    }
  }

  /** A range before range `i` and past the earlier ones goes in at `i`. */
  lemma PlaceBeforeSorted(rs: seq<Span>, i: nat, newRange: Span)
    requires i < |rs| && SpansSorted(rs) && AllWellFormed(rs) && WellFormed(newRange)
    requires forall j :: 0 <= j < i ==> Millis(rs[j].end) < Millis(newRange.start)
    requires Precedes(newRange, rs[i])
    ensures SpansSorted(rs[..i] + [newRange] + rs[i..])
  {
    var out := rs[..i] + [newRange] + rs[i..];
    forall j, k | 0 <= j < k < |out| ensures Millis(out[j].start) <= Millis(out[k].start) {
      if j < i && k == i {
        assert out[j] == rs[j] && out[k] == newRange;
      } else if j < i && k > i {
        assert out[j] == rs[j] && out[k] == rs[k - 1];
      } else if j == i {
        assert out[k] == rs[k - 1];
        assert Millis(rs[i].start) <= Millis(rs[k - 1].start);
      } else if j > i {
        assert out[j] == rs[j - 1] && out[k] == rs[k - 1];
      }
    }
  }

  /** With well-formed ranges, the merged list is sorted by start. */
  lemma MergedSorted(ranges: seq<Span>, newRange: Span)
    requires AllWellFormed(ranges) && WellFormed(newRange)
    ensures SpansSorted(Merged(ranges, newRange))
  {
    if ranges != [] {
      SortedSpansFacts(ranges);
      var sorted := SortSpans(ranges);
      forall j | 0 <= j < |sorted| ensures WellFormed(sorted[j]) {
        assert sorted[j] in ranges;
      }
      assert sorted[0] in sorted;
      CoalesceSeparated(sorted, 1, sorted[0]);
      InsertSorted(Coalesced(ranges), 0, newRange);
    }
  }

  /* ---- the merged list loses no instant ---- */

  predicate ContainsInstant(r: Span, t: int) {
    Millis(r.start) <= t <= Millis(r.end)
  }

  /** Some range of `rs` holds the instant `t`. */
  predicate Holds(rs: seq<Span>, t: int) {
    exists j :: 0 <= j < |rs| && ContainsInstant(rs[j], t)
  }

  lemma {:induction false} CoalesceCovers(rs: seq<Span>, i: nat, current: Span, t: int)
    requires 1 <= i <= |rs| && SpansSorted(rs)
    requires forall j :: i <= j < |rs| ==> Millis(current.start) <= Millis(rs[j].start)
    requires ContainsInstant(current, t) || Holds(rs[i..], t)
    ensures Holds(CoalesceFrom(rs, i, current), t)
    decreases |rs| - i
  {
    var out := CoalesceFrom(rs, i, current);
    if i == |rs| {
      assert out[0] == current;
    } else {
      var inRest := Holds(rs[i + 1..], t);
      if !ContainsInstant(current, t) && !ContainsInstant(rs[i], t) {
        var j :| 0 <= j < |rs[i..]| && ContainsInstant(rs[i..][j], t);
        assert j > 0 && rs[i + 1..][j - 1] == rs[i..][j];
        assert inRest;
      }
      if Touches(current, rs[i]) {
        CoalesceCovers(rs, i + 1, Span(current.start, LaterEnd(current, rs[i])), t);
      } else if ContainsInstant(current, t) {
        assert out[0] == current;
      } else {
        CoalesceCovers(rs, i + 1, rs[i], t);
        var rest := CoalesceFrom(rs, i + 1, rs[i]);
        var j :| 0 <= j < |rest| && ContainsInstant(rest[j], t);
        assert out[j + 1] == rest[j];
      }
    }
  }

  lemma {:induction false} InsertCovers(rs: seq<Span>, i: nat, newRange: Span, t: int)
    requires i <= |rs|
    requires ContainsInstant(newRange, t) || Holds(rs, t)
    ensures Holds(InsertFrom(rs, i, newRange), t)
    decreases |rs| - i
  {
    var out := InsertFrom(rs, i, newRange);
    if i == |rs| {
      if ContainsInstant(newRange, t) {
        assert out[|rs|] == newRange;
      } else {
        var j :| 0 <= j < |rs| && ContainsInstant(rs[j], t);
        assert out[j] == rs[j];
      }
    } else if Overlaps(newRange, rs[i]) {
      if ContainsInstant(newRange, t) {
        assert ContainsInstant(out[i], t);
      } else {
        var j :| 0 <= j < |rs| && ContainsInstant(rs[j], t);
        assert ContainsInstant(out[j], t);
      }
    } else if Precedes(newRange, rs[i]) {
      if ContainsInstant(newRange, t) {
        assert out[i] == newRange;
      } else {
        var j :| 0 <= j < |rs| && ContainsInstant(rs[j], t);
        if j < i {
          assert out[j] == rs[j];
        } else {
          assert out[j + 1] == rs[j];
        }
      }
    } else {
      InsertCovers(rs, i + 1, newRange, t);
    }
  }

  /** Every instant of the new range or of an existing range is held by some merged range. */
  lemma MergedCovers(ranges: seq<Span>, newRange: Span, t: int)
    requires ContainsInstant(newRange, t) || Holds(ranges, t)
    ensures Holds(Merged(ranges, newRange), t)
  {
    if ranges == [] {
      assert Merged(ranges, newRange)[0] == newRange;
    } else {
      if Holds(ranges, t) {
        CoalescedCovers(ranges, t);
      }
      InsertCovers(Coalesced(ranges), 0, newRange, t);
    }
  }

  /** Sorting and coalescing keep every instant a cached range held. */
  lemma CoalescedCovers(ranges: seq<Span>, t: int)
    requires ranges != [] && Holds(ranges, t)
    ensures Holds(Coalesced(ranges), t)
  {
    var sorted := SortSpans(ranges);
    assert Holds(sorted, t) by {
      SortedSpansFacts(ranges);
      var j :| 0 <= j < |ranges| && ContainsInstant(ranges[j], t);
      assert ranges[j] in sorted;
    }
    assert ContainsInstant(sorted[0], t) || Holds(sorted[1..], t) by {
      var k :| 0 <= k < |sorted| && ContainsInstant(sorted[k], t);
      if k > 0 {
        assert sorted[1..][k - 1] == sorted[k];
      }
    }
    CoalesceCovers(sorted, 1, sorted[0], t);
  }

  /* ---- merging a range that is already held changes nothing ---- */

  lemma {:induction false} CoalesceSeparatedIdentity(rs: seq<Span>, i: nat)
    requires 1 <= i <= |rs| && Separated(rs)
    ensures CoalesceFrom(rs, i, rs[i - 1]) == rs[i - 1..]
    decreases |rs| - i
  {
    if i < |rs| {
      CoalesceSeparatedIdentity(rs, i + 1);
      assert rs[i - 1..] == [rs[i - 1]] + rs[i..];
    }
  }

  lemma {:induction false} InsertHeldIdentity(rs: seq<Span>, i: nat, newRange: Span, k: int)
    requires Separated(rs) && AllWellFormed(rs) && WellFormed(newRange)
    requires i <= k < |rs|
    requires Millis(rs[k].start) <= Millis(newRange.start) && Millis(newRange.end) <= Millis(rs[k].end)
    ensures InsertFrom(rs, i, newRange) == rs
    decreases k - i
  {
    if i < k {
      SeparatedApart(rs, i, k);
      InsertHeldIdentity(rs, i + 1, newRange, k);
    } else {
      assert Widen(rs[k], newRange) == rs[k];
    }
  }

  /**
   * When the cache is already merged (well-formed, more than a day apart) and
   * one range holds the new one, `mergeDateRanges` returns the cache as it was.
   */
  lemma MergeHeldRange(ranges: seq<Span>, newRange: Span, k: int)
    requires Separated(ranges) && AllWellFormed(ranges) && WellFormed(newRange)
    requires 0 <= k < |ranges|
    requires Millis(ranges[k].start) <= Millis(newRange.start) && Millis(newRange.end) <= Millis(ranges[k].end)
    ensures Merged(ranges, newRange) == ranges
  {
    SeparatedSorted(ranges);
    SortSortedSpans(ranges);
    CoalesceSeparatedIdentity(ranges, 1);
    InsertHeldIdentity(ranges, 0, newRange, k);
  }

  /* ---- merging the same range twice ---- */

  /**
   * The coalescing loop takes in a range that starts within a day of the end
   * of the previous one, but the placement of the new range takes in only
   * ranges it meets. A range placed a day after a cached one is therefore
   * kept apart by the first merge and joined to it by the next.
   */
  lemma MergeTwiceDiffers()
    ensures var once := Merged([Span(DayString(0), DayString(1))], Span(DayString(2), DayString(4)));
      && once == [Span(DayString(0), DayString(1)), Span(DayString(2), DayString(4))]
      && Merged(once, Span(DayString(2), DayString(4))) == [Span(DayString(0), DayString(4))]
  {
    FirstMergeKeepsApart();
    SecondMergeJoins();
  }

  lemma FirstMergeKeepsApart()
    ensures Merged([Span(DayString(0), DayString(1))], Span(DayString(2), DayString(4)))
         == [Span(DayString(0), DayString(1)), Span(DayString(2), DayString(4))]
  {
    var a, n := Span(DayString(0), DayString(1)), Span(DayString(2), DayString(4));
    assert Coalesced([a]) == [a] by {
      SortSortedSpans([a]);
    }
    assert InsertFrom([a], 0, n) == InsertFrom([a], 1, n);
  }

  lemma SecondMergeJoins()
    ensures Merged([Span(DayString(0), DayString(1)), Span(DayString(2), DayString(4))], Span(DayString(2), DayString(4)))
         == [Span(DayString(0), DayString(4))]
  {
    var a, n := Span(DayString(0), DayString(1)), Span(DayString(2), DayString(4));
    CoalesceJoinsApartRanges();
    assert Overlaps(n, Span(DayString(0), DayString(4)));
  }

  lemma CoalesceJoinsApartRanges()
    ensures Coalesced([Span(DayString(0), DayString(1)), Span(DayString(2), DayString(4))]) == [Span(DayString(0), DayString(4))]
  {
    var a, n := Span(DayString(0), DayString(1)), Span(DayString(2), DayString(4));
    assert SortSpans([a, n]) == [a, n] by {
      SortSortedSpans([a, n]);
    }
    assert Touches(a, n) && LaterEnd(a, n) == n.end;
    assert CoalesceFrom([a, n], 1, a) == CoalesceFrom([a, n], 2, Span(a.start, n.end));
  }

  /**
   * The merge with the new range coalesced like the cached ones, under the
   * same one-day tolerance.
   */
  function MergedCoalescing(ranges: seq<Span>, newRange: Span): seq<Span> {
    Coalesced(ranges + [newRange])
  }

  /** The two lists have the same ranges, as instants. */
  predicate SameInstants(a: seq<Span>, b: seq<Span>) {
    |a| == |b| && forall j :: 0 <= j < |a| ==> Millis(a[j].start) == Millis(b[j].start) && Millis(a[j].end) == Millis(b[j].end)
  }

  /** `CoalesceFrom(rs, i, current)` reads `rs` from `i` on only. */
  lemma {:induction false} CoalesceSuffix(rs: seq<Span>, i: nat, ts: seq<Span>, j: nat, current: Span)
    requires 1 <= i <= |rs| && 1 <= j <= |ts| && rs[i..] == ts[j..]
    ensures CoalesceFrom(rs, i, current) == CoalesceFrom(ts, j, current)
    decreases |rs| - i
  {
    if i < |rs| {
      assert rs[i] == ts[j] && rs[i + 1..] == ts[j + 1..] by {
        assert rs[i] == rs[i..][0] && ts[j] == ts[j..][0];
        assert rs[i + 1..] == rs[i..][1..] && ts[j + 1..] == ts[j..][1..];
      }
      if Touches(current, rs[i]) {
        CoalesceSuffix(rs, i + 1, ts, j + 1, Span(current.start, LaterEnd(current, rs[i])));
      } else {
        CoalesceSuffix(rs, i + 1, ts, j + 1, rs[i]);
      }
    }
  }

  /** `x` goes between the spans that start no later than it and those that start later. */
  lemma {:induction false} InsertSpanBetween(x: Span, p: seq<Span>, q: seq<Span>)
    requires forall j :: 0 <= j < |p| ==> Millis(p[j].start) <= Millis(x.start)
    requires q != [] ==> Millis(x.start) < Millis(q[0].start)
    ensures InsertSpan(x, p + q) == p + [x] + q
  {
    if p == [] {
      InsertSpanFirst(x, q);
    } else {
      var rest := p[1..];
      forall j | 0 <= j < |rest| ensures Millis(rest[j].start) <= Millis(x.start) {
        assert rest[j] == p[j + 1];
      }
      InsertSpanBetween(x, rest, q);
      InsertSpanPastFirst(x, p, q);
    }
  }

  /** A span that starts before every span of `q` goes first. */
  lemma InsertSpanFirst(x: Span, q: seq<Span>)
    requires q != [] ==> Millis(x.start) < Millis(q[0].start)
    ensures InsertSpan(x, [] + q) == [] + [x] + q
  {
    assert [] + q == q && [] + [x] + q == [x] + q;
  }

  /** One step of `InsertSpanBetween`: `x` goes past the first span of `p`. */
  lemma InsertSpanPastFirst(x: Span, p: seq<Span>, q: seq<Span>)
    requires p != [] && Millis(p[0].start) <= Millis(x.start)
    requires InsertSpan(x, p[1..] + q) == p[1..] + [x] + q
    ensures InsertSpan(x, p + q) == p + [x] + q
  {
    var rest, s := p[1..], p + q;
    assert s[0] == p[0];
    assert s[1..] == rest + q;
    assert InsertSpan(x, s) == [p[0]] + (rest + [x] + q);
    ConsAround(p, x, q);
  }

  lemma ConsAround<T>(p: seq<T>, x: T, q: seq<T>)
    requires p != []
    ensures [p[0]] + (p[1..] + [x] + q) == p + [x] + q
  {
    assert p == [p[0]] + p[1..];
  }

  /** Up to the range `k` that holds the new range, coalescing copies the separated ranges. */
  lemma {:induction false} CoalesceUpTo(s: seq<Span>, c: seq<Span>, k: nat, i: nat)
    requires Separated(c) && k < |c| && 1 <= i <= k + 1 && k + 1 < |s|
    requires s[..k + 1] == c[..k + 1]
    ensures CoalesceFrom(s, i, c[i - 1]) == c[i - 1..k] + CoalesceFrom(s, k + 1, c[k])
    decreases k + 1 - i
  {
    if i <= k {
      assert s[i] == s[..k + 1][i] == c[i];
      assert !Touches(c[i - 1], c[i]);
      CoalesceUpTo(s, c, k, i + 1);
      assert c[i - 1..k] == [c[i - 1]] + c[i..k];
    }
  }

  /** A range held by range `k` of a separated list merges into that range. */
  lemma CoalesceHeld(c: seq<Span>, newRange: Span, k: nat)
    requires Separated(c) && AllWellFormed(c) && WellFormed(newRange) && k < |c|
    requires Millis(c[k].start) <= Millis(newRange.start) && Millis(newRange.end) <= Millis(c[k].end)
    ensures var s := c[..k + 1] + [newRange] + c[k + 1..];
      CoalesceFrom(s, 1, s[0]) == c[k := Span(c[k].start, LaterEnd(c[k], newRange))]
  {
    var s := c[..k + 1] + [newRange] + c[k + 1..];
    var w := Span(c[k].start, LaterEnd(c[k], newRange));
    assert s[..k + 1] == c[..k + 1];
    assert s[0] == c[0] && s[k] == c[k] && s[k + 1] == newRange;
    CoalesceUpTo(s, c, k, 1);
    assert CoalesceFrom(s, k + 1, c[k]) == CoalesceFrom(s, k + 2, w);
    if k + 1 < |c| {
      assert s[k + 2] == c[k + 1];
      assert !Touches(w, c[k + 1]);
      assert s[k + 3..] == c[k + 2..];
      CoalesceSuffix(s, k + 3, c, k + 2, c[k + 1]);
      CoalesceSeparatedIdentity(c, k + 2);
    }
    UpdateSplit(c, k, w);
  }

  lemma UpdateSplit<T>(c: seq<T>, k: nat, w: T)
    requires k < |c|
    ensures c[k := w] == c[..k] + [w] + c[k + 1..]
  {
  }

  /** In a separated list, a range that range `k` holds is placed right after `k`. */
  lemma PlaceHeld(c: seq<Span>, newRange: Span, k: nat)
    requires Separated(c) && AllWellFormed(c) && WellFormed(newRange) && k < |c|
    requires Millis(c[k].start) <= Millis(newRange.start) && Millis(newRange.end) <= Millis(c[k].end)
    ensures InsertSpan(newRange, c) == c[..k + 1] + [newRange] + c[k + 1..]
  {
    var front, back := c[..k + 1], c[k + 1..];
    assert front + back == c;
    assert forall j :: 0 <= j < |front| ==> Millis(front[j].start) <= Millis(newRange.start) by {
      SeparatedSorted(c);
      forall j | 0 <= j < |front| ensures Millis(front[j].start) <= Millis(newRange.start) {
        assert front[j] == c[j];
      }
    }
    assert back != [] ==> Millis(newRange.start) < Millis(back[0].start) by {
      if k + 1 < |c| {
        SeparatedApart(c, k, k + 1);
      }
    }
    InsertSpanBetween(newRange, front, back);
  }

  /** Sorting a separated list with a range that its range `k` holds puts that range right after `k`. */
  lemma SortHeld(c: seq<Span>, newRange: Span, k: nat)
    requires Separated(c) && AllWellFormed(c) && WellFormed(newRange) && k < |c|
    requires Millis(c[k].start) <= Millis(newRange.start) && Millis(newRange.end) <= Millis(c[k].end)
    ensures SortSpans(c + [newRange]) == c[..k + 1] + [newRange] + c[k + 1..]
  {
    assert SortSpans(c) == c by {
      SeparatedSorted(c);
      SortSortedSpans(c);
    }
    SortSpansAppend(c, newRange);
    PlaceHeld(c, newRange, k);
  }

  /** Merging a range that a range of a merged cache already holds leaves the same instants. */
  lemma MergeCoalescingHeld(c: seq<Span>, newRange: Span, k: nat)
    requires Separated(c) && AllWellFormed(c) && WellFormed(newRange) && k < |c|
    requires Millis(c[k].start) <= Millis(newRange.start) && Millis(newRange.end) <= Millis(c[k].end)
    ensures SameInstants(MergedCoalescing(c, newRange), c)
  {
    SortHeld(c, newRange, k);
    CoalesceHeld(c, newRange, k);
    var w := Span(c[k].start, LaterEnd(c[k], newRange));
    assert MergedCoalescing(c, newRange) == c[k := w];
  }

  /** Coalescing well-formed ranges leaves them separated and well-formed. */
  lemma CoalescedSeparated(ranges: seq<Span>)
    requires ranges != [] && AllWellFormed(ranges)
    ensures Separated(Coalesced(ranges)) && AllWellFormed(Coalesced(ranges))
  {
    SortedSpansFacts(ranges);
    var sorted := SortSpans(ranges);
    forall j | 0 <= j < |sorted| ensures WellFormed(sorted[j]) {
      assert sorted[j] in ranges;
    }
    CoalesceSeparated(sorted, 1, sorted[0]);
  }

  /** A range whose every instant a separated list holds lies within one range of the list. */
  lemma WithinOneRange(c: seq<Span>, newRange: Span) returns (k: nat)
    requires Separated(c) && AllWellFormed(c) && WellFormed(newRange)
    requires forall t :: ContainsInstant(newRange, t) ==> Holds(c, t)
    ensures k < |c| && Millis(c[k].start) <= Millis(newRange.start) && Millis(newRange.end) <= Millis(c[k].end)
  {
    assert Holds(c, Millis(newRange.start)) && Holds(c, Millis(newRange.end));
    var k1 :| 0 <= k1 < |c| && ContainsInstant(c[k1], Millis(newRange.start));
    var k2 :| 0 <= k2 < |c| && ContainsInstant(c[k2], Millis(newRange.end));
    if k2 < k1 {
      SeparatedApart(c, k2, k1);
    } else if k1 < k2 {
      SeparatedApart(c, k1, k2);
      var t := Millis(c[k1].end) + 1;
      assert Holds(c, t);
      var j :| 0 <= j < |c| && ContainsInstant(c[j], t);
      if j < k1 {
        SeparatedApart(c, j, k1);
      } else if k1 < j {
        SeparatedApart(c, k1, j);
      }
    }
    k := k1;
  }

  /** The coalesced list is separated and well-formed, and some range of it holds the new range. */
  lemma MergedCoalescingHolds(ranges: seq<Span>, newRange: Span) returns (k: nat)
    requires AllWellFormed(ranges) && WellFormed(newRange)
    ensures var c := MergedCoalescing(ranges, newRange);
      && Separated(c) && AllWellFormed(c) && k < |c|
      && Millis(c[k].start) <= Millis(newRange.start) && Millis(newRange.end) <= Millis(c[k].end)
  {
    var all := ranges + [newRange];
    var c := MergedCoalescing(ranges, newRange);
    assert all[|ranges|] == newRange;
    assert AllWellFormed(all) by {
      forall j | 0 <= j < |all| ensures WellFormed(all[j]) {
        if j < |ranges| {
          assert all[j] == ranges[j];
        }
      }
    }
    CoalescedSeparated(all);
    forall t | ContainsInstant(newRange, t) ensures Holds(c, t) {
      assert Holds(all, t) by {
        assert ContainsInstant(all[|ranges|], t);
      }
      CoalescedCovers(all, t);
    }
    k := WithinOneRange(c, newRange);
  }

  /** Merging the same range twice, with the tolerance on both loops, changes no instant. */
  lemma MergedCoalescingIdempotent(ranges: seq<Span>, newRange: Span)
    requires AllWellFormed(ranges) && WellFormed(newRange)
    ensures SameInstants(MergedCoalescing(MergedCoalescing(ranges, newRange), newRange), MergedCoalescing(ranges, newRange))
  {
    var k := MergedCoalescingHolds(ranges, newRange);
    MergeCoalescingHeld(MergedCoalescing(ranges, newRange), newRange, k);
  }

  /* ---------------- the reducer ---------------- */

  /** The `bookings` slice; `lastFetchTime` is the instant of the last successful fetch. */
  class BookingsState {
    var bookings: seq<Booking>
    var services: seq<Service>
    var cachedDateRanges: seq<Span>
    var loading: bool
    var error: Option<string>
    var lastFetchTime: Option<int>

    /** `initialState`. */
    constructor()
      ensures bookings == [] && services == [] && cachedDateRanges == []
      ensures !loading && error == None && lastFetchTime == None
    {
      bookings := [];
      services := [];
      cachedDateRanges := [];
      loading := false;
      error := None;
      lastFetchTime := None;
    }

    method ClearBookingsError()
      modifies this
      ensures error == None
      ensures bookings == old(bookings) && services == old(services) && cachedDateRanges == old(cachedDateRanges)
      ensures loading == old(loading) && lastFetchTime == old(lastFetchTime)
    {
      error := None;
    }

    method AddDateRange(range: Span)
      modifies this
      ensures cachedDateRanges == Merged(old(cachedDateRanges), range)
      ensures bookings == old(bookings) && services == old(services)
      ensures loading == old(loading) && error == old(error) && lastFetchTime == old(lastFetchTime)
    {
      cachedDateRanges := MergeDateRanges(cachedDateRanges, range);
    }

    /** `fetchBookings.pending` and `fetchServices.pending` act alike. */
    method FetchPending()
      modifies this
      ensures loading && error == None
      ensures bookings == old(bookings) && services == old(services) && cachedDateRanges == old(cachedDateRanges)
      ensures lastFetchTime == old(lastFetchTime)
    {
      loading := true;
      error := None;
    }

    method FetchBookingsFulfilled(payload: seq<Booking>, now: int)
      modifies this
      ensures !loading && bookings == payload && lastFetchTime == Some(now) && error == None
      ensures services == old(services) && cachedDateRanges == old(cachedDateRanges)
    {
      loading := false;
      bookings := payload;
      lastFetchTime := Some(now);
      error := None;
    }

    /** `action.payload || 'Failed to fetch bookings'`: a missing or empty payload is falsy. */
    method FetchBookingsRejected(payload: Option<string>)
      modifies this
      ensures !loading && error == Some(Reason(payload, "Failed to fetch bookings"))
      ensures bookings == old(bookings) && services == old(services) && cachedDateRanges == old(cachedDateRanges)
      ensures lastFetchTime == old(lastFetchTime)
    {
      loading := false;
      error := Some(Reason(payload, "Failed to fetch bookings"));
    }

    method FetchServicesFulfilled(payload: seq<Service>)
      modifies this
      ensures !loading && services == payload && error == None
      ensures bookings == old(bookings) && cachedDateRanges == old(cachedDateRanges)
      ensures lastFetchTime == old(lastFetchTime)
    {
      loading := false;
      services := payload;
      error := None;
    }

    method FetchServicesRejected(payload: Option<string>)
      modifies this
      ensures !loading && error == Some(Reason(payload, "Failed to fetch services"))
      ensures bookings == old(bookings) && services == old(services) && cachedDateRanges == old(cachedDateRanges)
      ensures lastFetchTime == old(lastFetchTime)
    {
      loading := false;
      error := Some(Reason(payload, "Failed to fetch services"));
    }
  }
}
