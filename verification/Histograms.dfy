/**
 * What a time series shows of ordinary years: a histogram over whole days,
 * weeks from Monday or calendar months.
 */
module Histograms {
  import opened Calendars
  import opened TimeSeries
  import opened TimeSeriesCounts

  // ----- The calendar's months ----------------------------------------------

  /** Thirty days have April, June, September and November. */
  predicate LastsDays(month: int, leap: bool, days: int) {
    && (month == 1 ==> days == if leap then 29 else 28)
    && (month in {3, 5, 8, 10} ==> days == 30)
    && (month in {0, 2, 4, 6, 7, 9, 11} ==> days == 31)
  }

  lemma DayZero()
    ensures MonthStart(1970 * 12) == 0
  {
    Januaries(1970);
  }

  /** Every month lasts the days it has; with the day 0, which is the first of January 1970, this is the calendar. */
  lemma MonthsLastTheirDays(m: int)
    ensures LastsDays(m % 12, Leap(m / 12), MonthStart(m + 1) - MonthStart(m))
  {
    MonthLengthIs(m);
    DaysAreKnown(m % 12, Leap(m / 12));
  }

  lemma DaysAreKnown(month: int, leap: bool)
    requires 0 <= month < 12
    ensures LastsDays(month, leap, DaysIn(month, leap))
  {
  }

  // ----- Units of days ------------------------------------------------------

  /** `s` is the first day of the day, week or month that day `d` is in. */
  ghost predicate FirstOf(cal: Calendar, d: int, s: int, g: Granularity) {
    match g
    case Day => s == d
    case Week => IsMonday(s) && s <= d < s + 7
    case Month => exists m: int :: s == cal(m) && s <= d < cal(m + 1)
  }

  lemma FirstIsAlign(cal: Calendar, d: int, s: int, g: Granularity)
    ensures FirstOf(cal, d, s, g) <==> s == Align(cal, d, g)
  {
    if g == Month && FirstOf(cal, d, s, g) {
      var m :| s == cal(m) && s <= d < cal(m + 1);
      MonthIsUnique(cal, d, m);
    }
    if g == Month && s == Align(cal, d, g) { assert s == cal(MonthOf(cal, d)); }
  }

  // ----- Counting -----------------------------------------------------------

  /** The places in a list where something holds. */
  ghost function Places(xs: seq<int>, holds: int -> bool): set<int> { set n | 0 <= n < |xs| && holds(xs[n]) }

  lemma OneMorePlace(xs: seq<int>, x: int, holds: int -> bool)
    ensures |Places(xs + [x], holds)| == |Places(xs, holds)| + if holds(x) then 1 else 0
  {
    var before, after := Places(xs, holds), Places(xs + [x], holds);
    if holds(x) {
      assert after == before + {|xs|};
    } else {
      assert after == before;
    }
  }

  ghost function HasKey(cal: Calendar, g: Granularity, k: Key): int -> bool { date => BucketKey(cal, date, g) == k }

  lemma {:induction false} OccurrencesAreCounted(cal: Calendar, dates: seq<int>, g: Granularity, k: Key)
    ensures Occurrences(cal, dates, g, k) == |Places(dates, HasKey(cal, g, k))|
    decreases |dates|
  {
    if dates == [] {
      assert Places(dates, HasKey(cal, g, k)) == {};
    } else {
      var most, date := dates[..|dates| - 1], dates[|dates| - 1];
      assert dates == most + [date];
      OccurrencesAreCounted(cal, most, g, k);
      OneMore(cal, most, date, g, k);
      OneMorePlace(most, date, HasKey(cal, g, k));
      assert HasKey(cal, g, k)(date) <==> BucketKey(cal, date, g) == k;
    }
  }

  // ----- The histogram ------------------------------------------------------

  /** The days of the range and of its first unit are in the years 100 to 9999. */
  ghost predicate Ordinary(cal: Calendar, from: int, to: int, g: Granularity) {
    && from <= to && to / MS_PER_DAY < cal(YEAR_10000)
    && cal(YEAR_100) <= from / MS_PER_DAY
    && forall s :: FirstOf(cal, from / MS_PER_DAY, s, g) ==> cal(YEAR_100) <= s
  }

  /** The dates of which a day is the first of the unit. */
  ghost function DatesOf(cal: Calendar, dates: seq<int>, g: Granularity, s: int): set<int> {
    set n | 0 <= n < |dates| && FirstOf(cal, dates[n] / MS_PER_DAY, s, g)
  }

  /**
   * From the unit of `from` to the unit of `to`, one bucket each without a
   * gap, labelled with its first day and holding the number of dates in it.
   */
  ghost predicate IsHistogram(cal: Calendar, dates: seq<int>, from: int, to: int, g: Granularity, buckets: seq<Bucket>)
  {
    && buckets != [] && (forall i :: 0 <= i < |buckets| ==> buckets[i].key.WholeDate?)
    && FirstOf(cal, from / MS_PER_DAY, buckets[0].key.day, g)
    && FirstOf(cal, to / MS_PER_DAY, buckets[|buckets| - 1].key.day, g)
    && (forall i :: 0 <= i < |buckets| - 1 ==> NextUnit(cal, buckets[i].key.day, buckets[i + 1].key.day, g))
    && (forall i :: 0 <= i < |buckets| ==> buckets[i].count == |DatesOf(cal, dates, g, buckets[i].key.day)|)
  }

  /** The days before `t` are those of the unit of `s`, and with `t` the next begins. */
  ghost predicate NextUnit(cal: Calendar, s: int, t: int, g: Granularity) {
    s < t && FirstOf(cal, t, t, g) && forall d :: s <= d < t ==> FirstOf(cal, d, s, g)
  }

  lemma OrdinaryIsClear(cal: Calendar, from: int, to: int, g: Granularity)
    requires Ordinary(cal, from, to, g)
    ensures Clear(cal, from, to, g) && MonthOf(cal, to / MS_PER_DAY) < YEAR_10000
    ensures BucketStart(cal, from, g) == Align(cal, from / MS_PER_DAY, g) >= cal(YEAR_100)
  {
    var a := from / MS_PER_DAY;
    MonthOrder(cal, a, YEAR_100);
    MonthOrder(cal, to / MS_PER_DAY, YEAR_10000);
    FirstIsAlign(cal, a, Align(cal, a, g), g);
    MonthOrder(cal, Align(cal, a, g), YEAR_100);
  }

  lemma OrdinaryStart(cal: Calendar, from: int, to: int, g: Granularity, s: int)
    requires Ordinary(cal, from, to, g) && IsStart(cal, from, to, g, s)
    ensures Label(cal, s, g) == WholeDate(s)
  {
    OrdinaryIsClear(cal, from, to, g);
    ClearStart(cal, from, to, g, s);
    ClearDay(cal, from, to, g, to / MS_PER_DAY);
    AlignedBucket(cal, to / MS_PER_DAY, g);
    MonthsFollowDays(cal, s, to / MS_PER_DAY);
    MonthOrder(cal, s, YEAR_100);
  }

  lemma OrdinaryDate(cal: Calendar, from: int, to: int, g: Granularity, date: int)
    requires Ordinary(cal, from, to, g) && from <= date <= to
    ensures BucketKey(cal, date, g) == WholeDate(Align(cal, date / MS_PER_DAY, g))
  {
    OrdinaryIsClear(cal, from, to, g);
    var d := date / MS_PER_DAY;
    ClearDay(cal, from, to, g, d);
    ClearStart(cal, from, to, g, Align(cal, d, g));
    OrdinaryStart(cal, from, to, g, Align(cal, d, g));
  }

  lemma DateCarriesItsUnit(cal: Calendar, from: int, to: int, g: Granularity, date: int, s: int)
    requires Ordinary(cal, from, to, g) && from <= date <= to
    ensures HasKey(cal, g, WholeDate(s))(date) <==> FirstOf(cal, date / MS_PER_DAY, s, g)
  {
    OrdinaryDate(cal, from, to, g, date);
    FirstIsAlign(cal, date / MS_PER_DAY, s, g);
  }

  lemma DatesCarryTheirUnit(cal: Calendar, dates: seq<int>, from: int, to: int, g: Granularity, s: int)
    requires Ordinary(cal, from, to, g) && InRange(dates, from, to)
    ensures Places(dates, HasKey(cal, g, WholeDate(s))) == DatesOf(cal, dates, g, s)
  {
    var holds := HasKey(cal, g, WholeDate(s));
    forall n | 0 <= n < |dates| ensures holds(dates[n]) <==> FirstOf(cal, dates[n] / MS_PER_DAY, s, g) {
      DateCarriesItsUnit(cal, from, to, g, dates[n], s);
    }
  }

  lemma BucketCounts(cal: Calendar, dates: seq<int>, from: int, to: int, g: Granularity, s: int)
    requires Ordinary(cal, from, to, g) && InRange(dates, from, to) && IsStart(cal, from, to, g, s)
    ensures BucketFor(cal, dates, g, s) == Bucket(WholeDate(s), |DatesOf(cal, dates, g, s)|)
  {
    OrdinaryStart(cal, from, to, g, s);
    OccurrencesAreCounted(cal, dates, g, WholeDate(s));
    DatesCarryTheirUnit(cal, dates, from, to, g, s);
  }

  lemma SuccessorIsNextUnit(cal: Calendar, s: int, g: Granularity)
    requires Aligned(cal, s, g)
    ensures NextUnit(cal, s, AddBucket(cal, s, g), g)
  {
    var t := AddBucket(cal, s, g);
    NextIsAligned(cal, s, g);
    FirstIsAlign(cal, t, t, g);
    forall d | s <= d < t ensures FirstOf(cal, d, s, g) {
      AlignedBucket(cal, d, g);
      BucketsAreDisjoint(cal, s, Align(cal, d, g), d, g);
      FirstIsAlign(cal, d, s, g);
    }
  }

  /** In ordinary years the series built is the histogram of the dates. */
  lemma SeriesIsHistogram(cal: Calendar, dates: seq<int>, from: int, to: int, g: Granularity, buckets: seq<Bucket>)
    requires Ordinary(cal, from, to, g) && InRange(dates, from, to)
    requires IsSeries(cal, dates, g, BucketStarts(cal, from, to, g), buckets)
    ensures IsHistogram(cal, dates, from, to, g, buckets)
  {
    var starts, a, b := BucketStarts(cal, from, to, g), from / MS_PER_DAY, to / MS_PER_DAY;
    OrdinaryIsClear(cal, from, to, g);
    ClearDay(cal, from, to, g, a);
    ClearDay(cal, from, to, g, b);
    AlignedBucket(cal, a, g);
    AlignedBucket(cal, b, g);
    StartsAreConsecutive(cal, BucketStart(cal, from, g), BucketStart(cal, to, g), g);
    StartsAreThese(cal, from, to, g);
    FirstIsAlign(cal, a, starts[0], g);
    FirstIsAlign(cal, b, starts[|starts| - 1], g);
    forall i | 0 <= i < |starts|
      ensures buckets[i] == Bucket(WholeDate(starts[i]), |DatesOf(cal, dates, g, starts[i])|)
    {
      BucketCounts(cal, dates, from, to, g, starts[i]);
    }
    forall i | 0 <= i < |starts| - 1 ensures NextUnit(cal, starts[i], starts[i + 1], g) {
      SuccessorIsNextUnit(cal, starts[i], g);
    }
  }
}
