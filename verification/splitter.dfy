/** The calendar-year range splitter (`generate_yearly_date_ranges`).

    The source walks forward from the start date; each range ends at the
    earlier of 31 December of the current year and the end date, and the
    next range starts on 1 January of the following year. That walk is
    `GenerateYearlyDateRanges` below. Its partner is `YearlyRanges`, a
    closed form that describes the range of every year directly. */
module Splitter {
  import opened Dates

  /** The splitter either yields its ranges or fails the way Python does
      when `31 Dec 9999 + 1 day` leaves the representable date range. */
  datatype SplitOutcome = Split(ranges: seq<DateRange>) | YearOverflow

  /** The part of `[start, end]` that falls in calendar year `y`. */
  function YearSlice(start: Date, end: Date, y: int): DateRange {
    DateRange(if y == start.year then start else Jan1(y),
              if y == end.year then end else Dec31(y))
  }

  /** One range per calendar year from `start.year` to `end.year`, and
      none at all when `start` is after `end`. */
  function YearlyRanges(start: Date, end: Date): seq<DateRange> {
    if Before(end, start) then []
    else seq(end.year - start.year + 1, i => YearSlice(start, end, start.year + i))
  }

  /** For `start <= end`, the range at index `i` is the slice of year
      `start.year + i`. */
  lemma YearlyRangesIndex(start: Date, end: Date)
    requires NotAfter(start, end)
    ensures |YearlyRanges(start, end)| == end.year - start.year + 1
    ensures forall i :: 0 <= i < |YearlyRanges(start, end)| ==>
      YearlyRanges(start, end)[i] == YearSlice(start, end, start.year + i)
  {
    Total(start, end);
  }

  /** Whether `d` lies in one of the ranges. */
  predicate Covered(rs: seq<DateRange>, d: Date) {
    exists i :: 0 <= i < |rs| && NotAfter(rs[i].lo, d) && NotAfter(d, rs[i].hi)
  }

  /** The walk of the source's `while current_start <= end_date` loop. */
  method GenerateYearlyDateRanges(start: Date, end: Date) returns (r: SplitOutcome)
    requires Valid(start) && Valid(end)
    ensures Before(end, start) ==> r == Split([])
    ensures NotAfter(start, end) ==> (r == YearOverflow <==> end.year == MaxYear)
    ensures r.Split? ==> r.ranges == YearlyRanges(start, end)
  {
    var ranges: seq<DateRange> := [];
    var current := start;
    while NotAfter(current, end)
      invariant Valid(current)
      invariant Before(end, start) ==> current == start && ranges == []
      invariant NotAfter(start, end) ==> start.year <= current.year <= end.year + 1
      invariant current != start ==> current == Jan1(current.year) && start.year < current.year
      invariant NotAfter(start, end) ==>
        ranges == YearlyRanges(start, end)[..current.year - start.year]
      decreases end.year - current.year + 1
    {
      var yearEnd := Dec31(current.year);
      var currentEnd := MinDate(yearEnd, end);
      ghost var k := current.year - start.year;
      YearMonotone(current, end);
      YearlyRangesIndex(start, end);
      WithinItsYear(end);
      assert DateRange(current, currentEnd) == YearlyRanges(start, end)[k];
      assert YearlyRanges(start, end)[..k + 1] == YearlyRanges(start, end)[..k] + [YearlyRanges(start, end)[k]];
      ranges := ranges + [DateRange(current, currentEnd)];
      if current.year == MaxYear {
        // `year_end + timedelta(days=1)` raises OverflowError
        return YearOverflow;
      }
      current := Jan1(current.year + 1);
    }
    if NotAfter(start, end) {
      assert current.year == end.year + 1;
    }
    r := Split(ranges);
  }

  /** Count and end points: for `start <= end` there is one range per
      calendar year, the first begins at `start` and the last ends at `end`. */
  lemma YearlyRangesEnds(start: Date, end: Date)
    requires Valid(start) && Valid(end) && NotAfter(start, end)
    ensures |YearlyRanges(start, end)| == end.year - start.year + 1
    ensures YearlyRanges(start, end)[0].lo == start
    ensures YearlyRanges(start, end)[|YearlyRanges(start, end)| - 1].hi == end
  {
    YearlyRangesIndex(start, end);
  }

  /** Shape: range `i` is a non-empty interval of valid dates inside
      calendar year `start.year + i`; every range but the last ends on
      31 December and every range but the first begins on 1 January, so
      consecutive ranges meet at a year boundary. */
  lemma YearlyRangesShape(start: Date, end: Date)
    requires Valid(start) && Valid(end)
    ensures forall i :: 0 <= i < |YearlyRanges(start, end)| ==>
      && Valid(YearlyRanges(start, end)[i].lo)
      && Valid(YearlyRanges(start, end)[i].hi)
      && YearlyRanges(start, end)[i].lo.year == start.year + i
      && YearlyRanges(start, end)[i].hi.year == start.year + i
      && NotAfter(YearlyRanges(start, end)[i].lo, YearlyRanges(start, end)[i].hi)
    ensures forall i :: 0 <= i < |YearlyRanges(start, end)| ==>
      && (i < |YearlyRanges(start, end)| - 1 ==> YearlyRanges(start, end)[i].hi == Dec31(start.year + i))
      && (0 < i ==> YearlyRanges(start, end)[i].lo == Jan1(start.year + i))
  {
    var rs := YearlyRanges(start, end);
    if Before(end, start) {
      return;
    }
    Total(start, end);
    YearlyRangesIndex(start, end);
    forall i | 0 <= i < |rs|
      ensures Valid(rs[i].lo) && Valid(rs[i].hi)
      ensures rs[i].lo.year == rs[i].hi.year == start.year + i
      ensures NotAfter(rs[i].lo, rs[i].hi)
    {
      YearMonotone(start, end);
      var y := start.year + i;
      if y == start.year && y == end.year {
      } else if y == start.year {
        WithinItsYear(start);
      } else if y == end.year {
        WithinItsYear(end);
      }
    }
  }

  /** Ranges are ordered and pairwise disjoint: every date of an earlier
      range comes strictly before every date of a later one. */
  lemma YearlyRangesDisjoint(start: Date, end: Date)
    requires Valid(start) && Valid(end)
    ensures forall i, j :: 0 <= i < j < |YearlyRanges(start, end)| ==>
      Before(YearlyRanges(start, end)[i].hi, YearlyRanges(start, end)[j].lo)
  {
    YearlyRangesShape(start, end);
  }

  /** Coverage: a valid date is in some range exactly when it lies in
      `[start, end]`. */
  lemma YearlyRangesCover(start: Date, end: Date, d: Date)
    requires Valid(start) && Valid(end) && Valid(d)
    ensures Covered(YearlyRanges(start, end), d) <==> NotAfter(start, d) && NotAfter(d, end)
  {
    var rs := YearlyRanges(start, end);
    if NotAfter(start, d) && NotAfter(d, end) {
      NotAfterTransitive(start, d, end);
      YearMonotone(start, d);
      YearMonotone(d, end);
      var i := d.year - start.year;
      WithinItsYear(d);
      YearlyRangesIndex(start, end);
      assert NotAfter(rs[i].lo, d) && NotAfter(d, rs[i].hi);
    }
    if Covered(rs, d) {
      var i :| 0 <= i < |rs| && NotAfter(rs[i].lo, d) && NotAfter(d, rs[i].hi);
      YearlyRangesShape(start, end);
      YearlyRangesEnds(start, end);
      assert NotAfter(start, rs[i].lo) by { YearMonotone(start, end); WithinItsYear(start); }
      assert NotAfter(rs[i].hi, end) by { YearMonotone(start, end); WithinItsYear(end); }
      NotAfterTransitive(start, rs[i].lo, d);
      NotAfterTransitive(d, rs[i].hi, end);
    }
  }

  /** A worked example: 2022-06-15 .. 2024-02-10. */
  lemma SplitExample()
    ensures YearlyRanges(Date(2022, 6, 15), Date(2024, 2, 10)) ==
      [ DateRange(Date(2022, 6, 15), Date(2022, 12, 31)),
        DateRange(Date(2023, 1, 1), Date(2023, 12, 31)),
        DateRange(Date(2024, 1, 1), Date(2024, 2, 10)) ]
  {
    YearlyRangesIndex(Date(2022, 6, 15), Date(2024, 2, 10));
  }
}
