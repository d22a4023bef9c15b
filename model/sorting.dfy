/**
 * `[...ranges].sort((a, b) => a.start - b.start)` on a copy: a stable
 * insertion sort by start (ECMAScript requires `Array.prototype.sort` to be
 * stable), once for ranges of instants and once for ranges of date values.
 */
module Sorting {
  import opened Dates

  /* ---------------- ranges of instants ---------------- */

  predicate IntervalsSorted(s: seq<Interval>) {
    forall i, j :: 0 <= i < j < |s| ==> s[i].start <= s[j].start
  }

  /** Places `x` after every range that does not start later than it. */
  function InsertInterval(x: Interval, s: seq<Interval>): (r: seq<Interval>)
    ensures multiset(r) == multiset(s) + multiset{x}
  {
    if s == [] then [x]
    else if x.start < s[0].start then [x] + s
    else
      assert s == [s[0]] + s[1..];
      [s[0]] + InsertInterval(x, s[1..])
  }

  lemma {:induction false} InsertIntervalSorted(x: Interval, s: seq<Interval>)
    requires IntervalsSorted(s)
    ensures IntervalsSorted(InsertInterval(x, s))
  {
    if s != [] && x.start >= s[0].start {
      var tail := InsertInterval(x, s[1..]);
      InsertIntervalSorted(x, s[1..]);
      forall j | 0 <= j < |tail| ensures s[0].start <= tail[j].start {
        assert tail[j] in multiset(tail);
        assert tail[j] in multiset(s[1..]) || tail[j] == x;
      }
    }
  }

  function SortIntervals(s: seq<Interval>): (r: seq<Interval>)
    ensures multiset(r) == multiset(s)
    ensures IntervalsSorted(r)
  {
    if s == [] then []
    else
      assert s == s[..|s| - 1] + [s[|s| - 1]];
      InsertIntervalSorted(s[|s| - 1], SortIntervals(s[..|s| - 1]));
      InsertInterval(s[|s| - 1], SortIntervals(s[..|s| - 1]))
  }

  /** The sorted copy holds the same ranges, and its first one starts earliest. */
  lemma SortedIntervalsFacts(s: seq<Interval>)
    ensures |SortIntervals(s)| == |s|
    ensures forall r :: r in SortIntervals(s) <==> r in s
    ensures forall r :: r in s ==> SortIntervals(s)[0].start <= r.start
  {
    var r := SortIntervals(s);
    assert |r| == |multiset(r)|;
    forall x | x in r ensures x in s {
      assert x in multiset(r);
    }
    forall x | x in s ensures x in r && r[0].start <= x.start {
      assert x in multiset(s);
    }
  }

  /* ---------------- ranges of date values ---------------- */

  predicate SpansSorted(s: seq<Span>) {
    forall i, j :: 0 <= i < j < |s| ==> Millis(s[i].start) <= Millis(s[j].start)
  }

  /** Places `x` after every span that does not start later than it. */
  function InsertSpan(x: Span, s: seq<Span>): (r: seq<Span>)
    ensures multiset(r) == multiset(s) + multiset{x}
  {
    if s == [] then [x]
    else if Millis(x.start) < Millis(s[0].start) then [x] + s
    else
      assert s == [s[0]] + s[1..];
      [s[0]] + InsertSpan(x, s[1..])
  }

  lemma {:induction false} InsertSpanSorted(x: Span, s: seq<Span>)
    requires SpansSorted(s)
    ensures SpansSorted(InsertSpan(x, s))
  {
    if s != [] && Millis(x.start) >= Millis(s[0].start) {
      var tail := InsertSpan(x, s[1..]);
      InsertSpanSorted(x, s[1..]);
      forall j | 0 <= j < |tail| ensures Millis(s[0].start) <= Millis(tail[j].start) {
        assert tail[j] in multiset(tail);
        assert tail[j] in multiset(s[1..]) || tail[j] == x;
      }
    }
  }

  function SortSpans(s: seq<Span>): (r: seq<Span>)
    ensures multiset(r) == multiset(s)
    ensures SpansSorted(r)
  {
    if s == [] then []
    else
      assert s == s[..|s| - 1] + [s[|s| - 1]];
      InsertSpanSorted(s[|s| - 1], SortSpans(s[..|s| - 1]));
      InsertSpan(s[|s| - 1], SortSpans(s[..|s| - 1]))
  }

  /** The sorted copy holds the same spans, and its first one starts earliest. */
  lemma SortedSpansFacts(s: seq<Span>)
    ensures |SortSpans(s)| == |s|
    ensures forall r :: r in SortSpans(s) <==> r in s
    ensures forall r :: r in s ==> Millis(SortSpans(s)[0].start) <= Millis(r.start)
  {
    var r := SortSpans(s);
    assert |r| == |multiset(r)|;
    forall x | x in r ensures x in s {
      assert x in multiset(r);
    }
    forall x | x in s ensures x in r && Millis(r[0].start) <= Millis(x.start) {
      assert x in multiset(s);
    }
  }

  lemma {:induction false} InsertSpanLatest(x: Span, s: seq<Span>)
    requires forall i :: 0 <= i < |s| ==> Millis(s[i].start) <= Millis(x.start)
    ensures InsertSpan(x, s) == s + [x]
  {
    if s != [] {
      InsertSpanLatest(x, s[1..]);
    }
  }

  /** Sorting a list with one more span at its end places that span in the sorted list. */
  lemma SortSpansAppend(s: seq<Span>, x: Span)
    ensures SortSpans(s + [x]) == InsertSpan(x, SortSpans(s))
  {
    var all := s + [x];
    assert all[..|all| - 1] == s;
  }

  /** Sorting spans that are already in order changes nothing. */
  lemma {:induction false} SortSortedSpans(s: seq<Span>)
    requires SpansSorted(s)
    ensures SortSpans(s) == s
  {
    if s != [] {
      var init := s[..|s| - 1];
      SortSortedSpans(init);
      InsertSpanLatest(s[|s| - 1], init);
      assert init + [s[|s| - 1]] == s;
    }
  }
}
