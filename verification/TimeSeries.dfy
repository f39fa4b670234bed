/**
 * Calendar bucketing of registration dates: the series of buckets, and when
 * each date lies in exactly one. A date is a time value in milliseconds.
 */
module TimeSeries {
  import opened Calendars

  const MS_PER_DAY := 86400000

  datatype Granularity = Day | Week | Month

  // ----- Buckets -----------------------------------------------------------

  predicate TwoDigitYear(m: int) { 0 <= m < YEAR_100 }

  /** Date.UTC takes a year from 0 to 99 as 1900 to 1999; the day of the month may then run into the next month. */
  function Midnight(cal: Calendar, d: int): int {
    var m := MonthOf(cal, d);
    if TwoDigitYear(m) then cal(m + SHIFT) + (d - cal(m)) else d
  }

  /** Weeks start on Monday. */
  function Align(cal: Calendar, d: int, g: Granularity): int {
    match g
    case Day => d
    case Week => d - (d + 3) % 7
    case Month => cal(MonthOf(cal, d))
  }

  /** The first day of the bucket that getBucketStart gives a date of this day. */
  function BucketDay(cal: Calendar, d: int, g: Granularity): int { Align(cal, Midnight(cal, d), g) }

  function BucketStart(cal: Calendar, date: int, g: Granularity): int { BucketDay(cal, date / MS_PER_DAY, g) }

  function AddBucket(cal: Calendar, s: int, g: Granularity): int {
    match g
    case Day => s + 1
    case Week => s + 7
    case Month => cal(MonthOf(cal, s) + 1) + (s - cal(MonthOf(cal, s)))
  }

  /**
   * The first ten characters of the ISO form. A year of four digits leaves
   * room for the whole date; any other is written with a sign and six digits,
   * which leaves room for the month only.
   */
  datatype Key = WholeDate(day: int) | MonthOnly(month: int)

  predicate FourDigits(m: int) { 0 <= m < YEAR_10000 }

  function KeyOf(cal: Calendar, s: int): Key {
    if FourDigits(MonthOf(cal, s)) then WholeDate(s) else MonthOnly(MonthOf(cal, s))
  }

  /** The key of a day; a bucket is labelled with the key of its first day, taken anew. */
  function Label(cal: Calendar, d: int, g: Granularity): Key { KeyOf(cal, BucketDay(cal, d, g)) }

  function BucketKey(cal: Calendar, date: int, g: Granularity): Key { Label(cal, date / MS_PER_DAY, g) }

  predicate Aligned(cal: Calendar, s: int, g: Granularity) { Align(cal, s, g) == s }

  lemma AlignedBucket(cal: Calendar, d: int, g: Granularity)
    ensures Aligned(cal, Align(cal, d, g), g) && Align(cal, d, g) <= d < AddBucket(cal, Align(cal, d, g), g)
  {
    if g.Month? { MonthOfStart(cal, MonthOf(cal, d)); }
  }

  lemma NextIsAligned(cal: Calendar, s: int, g: Granularity)
    requires Aligned(cal, s, g)
    ensures Aligned(cal, AddBucket(cal, s, g), g) && s < AddBucket(cal, s, g)
  {
    if g.Month? { assert RegularAt(cal, MonthOf(cal, s)); MonthOfStart(cal, MonthOf(cal, s) + 1); }
  }

  lemma NoStartBetween(cal: Calendar, s: int, t: int, g: Granularity)
    requires Aligned(cal, s, g) && Aligned(cal, t, g) && s < t
    ensures AddBucket(cal, s, g) <= t
  {
    if g.Month? {
      MonthsFollowDays(cal, s, t);
      if MonthOf(cal, s) + 1 < MonthOf(cal, t) { MonthsAscend(cal, MonthOf(cal, s) + 1, MonthOf(cal, t)); }
    }
  }

  lemma AlignIsMonotone(cal: Calendar, c: int, d: int, g: Granularity)
    requires c <= d
    ensures Align(cal, c, g) <= Align(cal, d, g)
  {
    if g.Month? {
      MonthsFollowDays(cal, c, d);
      if MonthOf(cal, c) < MonthOf(cal, d) { MonthsAscend(cal, MonthOf(cal, c), MonthOf(cal, d)); }
    }
  }

  // ----- The series --------------------------------------------------------

  function Starts(cal: Calendar, s: int, final: int, g: Granularity): seq<int>
    requires Aligned(cal, s, g)
    decreases final + 1 - s
  {
    NextIsAligned(cal, s, g);
    if s > final then [] else [s] + Starts(cal, AddBucket(cal, s, g), final, g)
  }

  function BucketStarts(cal: Calendar, from: int, to: int, g: Granularity): seq<int> {
    AlignedBucket(cal, Midnight(cal, from / MS_PER_DAY), g);
    Starts(cal, BucketStart(cal, from, g), BucketStart(cal, to, g), g)
  }

  function Occurrences(cal: Calendar, dates: seq<int>, g: Granularity, k: Key): nat {
    if dates == [] then 0 else (if BucketKey(cal, dates[0], g) == k then 1 else 0) + Occurrences(cal, dates[1..], g, k)
  }

  datatype Bucket = Bucket(key: Key, count: nat)

  lemma {:induction false} OneMore(cal: Calendar, dates: seq<int>, date: int, g: Granularity, k: Key)
    ensures Occurrences(cal, dates + [date], g, k) ==
            Occurrences(cal, dates, g, k) + if BucketKey(cal, date, g) == k then 1 else 0
  {
    if dates == [] { assert dates + [date] == [date]; }
    else {
      assert (dates + [date])[1..] == dates[1..] + [date];
      OneMore(cal, dates[1..], date, g, k);
    }
  }

  function Count(countMap: map<Key, nat>, k: Key): nat { if k in countMap then countMap[k] else 0 }

  ghost predicate Counts(cal: Calendar, dates: seq<int>, g: Granularity, countMap: map<Key, nat>) {
    forall k :: Count(countMap, k) == Occurrences(cal, dates, g, k)
  }

  method CountByKey(cal: Calendar, dates: seq<int>, g: Granularity) returns (countMap: map<Key, nat>)
    ensures Counts(cal, dates, g, countMap)
  {
    countMap := map[];
    for n := 0 to |dates|
      invariant Counts(cal, dates[..n], g, countMap)
    {
      var key := BucketKey(cal, dates[n], g);
      assert dates[..n + 1] == dates[..n] + [dates[n]];
      CountsGrow(cal, dates[..n], dates[n], g, countMap);
      countMap := countMap[key := Count(countMap, key) + 1];
    }
    assert dates[..|dates|] == dates;
  }

  lemma CountsGrow(cal: Calendar, dates: seq<int>, date: int, g: Granularity, countMap: map<Key, nat>)
    requires Counts(cal, dates, g, countMap)
    ensures var key := BucketKey(cal, date, g);
            Counts(cal, dates + [date], g, countMap[key := Count(countMap, key) + 1])
  {
    forall k
      ensures Occurrences(cal, dates + [date], g, k) ==
              Occurrences(cal, dates, g, k) + if BucketKey(cal, date, g) == k then 1 else 0
    {
      OneMore(cal, dates, date, g, k);
    }
  }

  function BucketFor(cal: Calendar, dates: seq<int>, g: Granularity, s: int): Bucket {
    Bucket(Label(cal, s, g), Occurrences(cal, dates, g, Label(cal, s, g)))
  }

  lemma StartsUnfold(cal: Calendar, s: int, final: int, g: Granularity)
    requires Aligned(cal, s, g)
    ensures Aligned(cal, AddBucket(cal, s, g), g) && s < AddBucket(cal, s, g)
    ensures Starts(cal, s, final, g) == if s > final then [] else [s] + Starts(cal, AddBucket(cal, s, g), final, g)
  {
    NextIsAligned(cal, s, g);
  }

  /** One bucket for every start, holding the number of dates with its key. */
  predicate IsSeries(cal: Calendar, dates: seq<int>, g: Granularity, starts: seq<int>, buckets: seq<Bucket>) {
    |buckets| == |starts| && forall i :: 0 <= i < |starts| ==> buckets[i] == BucketFor(cal, dates, g, starts[i])
  }

  lemma SeriesGrows(cal: Calendar, dates: seq<int>, g: Granularity, starts: seq<int>, buckets: seq<Bucket>,
                    s: int, b: Bucket)
    requires IsSeries(cal, dates, g, starts, buckets) && b == BucketFor(cal, dates, g, s)
    ensures IsSeries(cal, dates, g, starts + [s], buckets + [b])
  {
  }

  method BuildTimeSeries(cal: Calendar, dates: seq<int>, from: int, to: int, g: Granularity)
    returns (buckets: seq<Bucket>)
    ensures IsSeries(cal, dates, g, BucketStarts(cal, from, to, g), buckets)
  {
    var countMap := CountByKey(cal, dates, g);
    AlignedBucket(cal, Midnight(cal, from / MS_PER_DAY), g);
    buckets := EmitBuckets(cal, dates, countMap, BucketStart(cal, from, g), BucketStart(cal, to, g), g);
  }

  method EmitBuckets(cal: Calendar, ghost dates: seq<int>, countMap: map<Key, nat>, first: int, final: int,
                     g: Granularity)
    returns (buckets: seq<Bucket>)
    requires Aligned(cal, first, g)
    requires Counts(cal, dates, g, countMap)
    ensures IsSeries(cal, dates, g, Starts(cal, first, final, g), buckets)
  {
    var cursor := first;
    ghost var done: seq<int> := [];
    buckets := [];
    while cursor <= final
      invariant Split(cal, first, final, g, done, cursor)
      invariant IsSeries(cal, dates, g, done, buckets)
      decreases final + 1 - cursor
    {
      var key := Label(cal, cursor, g);
      var bucket := Bucket(key, Count(countMap, key));
      SplitStep(cal, first, final, g, done, cursor);
      SeriesGrows(cal, dates, g, done, buckets, cursor, bucket);
      buckets := buckets + [bucket];
      done := done + [cursor];
      cursor := AddBucket(cal, cursor, g);
    }
    SplitEnds(cal, first, final, g, done, cursor);
  }

  /** The starts done and those still to come. */
  predicate Split(cal: Calendar, first: int, final: int, g: Granularity, done: seq<int>, cursor: int)
    requires Aligned(cal, first, g)
  {
    Aligned(cal, cursor, g) && Starts(cal, first, final, g) == done + Starts(cal, cursor, final, g)
  }

  lemma SplitStep(cal: Calendar, first: int, final: int, g: Granularity, done: seq<int>, cursor: int)
    requires Aligned(cal, first, g) && Split(cal, first, final, g, done, cursor) && cursor <= final
    ensures cursor < AddBucket(cal, cursor, g)
            && Split(cal, first, final, g, done + [cursor], AddBucket(cal, cursor, g))
  {
    StartsUnfold(cal, cursor, final, g);
    var rest := Starts(cal, AddBucket(cal, cursor, g), final, g);
    assert done + ([cursor] + rest) == done + [cursor] + rest;
  }

  lemma SplitEnds(cal: Calendar, first: int, final: int, g: Granularity, done: seq<int>, cursor: int)
    requires Aligned(cal, first, g) && Split(cal, first, final, g, done, cursor) && cursor > final
    ensures Starts(cal, first, final, g) == done
  {
    StartsUnfold(cal, cursor, final, g);
  }

  /** From the bucket of `from` to the bucket of `to`, each the next of the one before: no gap and no overlap. */
  lemma {:induction false} StartsAreConsecutive(cal: Calendar, s: int, final: int, g: Granularity)
    requires Aligned(cal, s, g) && Aligned(cal, final, g) && s <= final
    ensures var starts := Starts(cal, s, final, g);
            && starts != [] && starts[0] == s && starts[|starts| - 1] == final
            && (forall i :: 0 <= i < |starts| ==> Aligned(cal, starts[i], g))
            && (forall i :: 0 <= i < |starts| - 1 ==> starts[i + 1] == AddBucket(cal, starts[i], g))
            && (forall i, j :: 0 <= i < j < |starts| ==> starts[i] < starts[j])
    decreases final - s
  {
    NextIsAligned(cal, s, g);
    if s < final {
      NoStartBetween(cal, s, final, g);
      StartsAreConsecutive(cal, AddBucket(cal, s, g), final, g);
      var rest := Starts(cal, AddBucket(cal, s, g), final, g);
      forall i | 0 <= i < |rest| ensures s < rest[i] { }
    }
  }

  lemma {:induction false} EveryStartIsThere(cal: Calendar, s: int, final: int, g: Granularity, t: int)
    requires Aligned(cal, s, g) && Aligned(cal, final, g) && Aligned(cal, t, g) && s <= t <= final
    ensures t in Starts(cal, s, final, g)
    decreases final - s
  {
    NextIsAligned(cal, s, g);
    if s < t {
      NoStartBetween(cal, s, t, g);
      EveryStartIsThere(cal, AddBucket(cal, s, g), final, g, t);
    }
  }

  /** The starts of the series: every first day of a bucket from that of `from` to that of `to`. */
  predicate IsStart(cal: Calendar, from: int, to: int, g: Granularity, s: int) {
    Aligned(cal, s, g) && BucketStart(cal, from, g) <= s <= BucketStart(cal, to, g)
  }

  lemma StartsAreThese(cal: Calendar, from: int, to: int, g: Granularity)
    ensures var starts := BucketStarts(cal, from, to, g);
            && (forall i :: 0 <= i < |starts| ==> IsStart(cal, from, to, g, starts[i]))
            && (forall i, j :: 0 <= i < j < |starts| ==> starts[i] < starts[j])
  {
    var first, final := BucketStart(cal, from, g), BucketStart(cal, to, g);
    AlignedBucket(cal, Midnight(cal, from / MS_PER_DAY), g);
    AlignedBucket(cal, Midnight(cal, to / MS_PER_DAY), g);
    if first <= final { StartsAreConsecutive(cal, first, final, g); } else { StartsUnfold(cal, first, final, g); }
  }

  lemma StartIsThere(cal: Calendar, from: int, to: int, g: Granularity, s: int)
    requires IsStart(cal, from, to, g, s)
    ensures s in BucketStarts(cal, from, to, g)
  {
    AlignedBucket(cal, Midnight(cal, from / MS_PER_DAY), g);
    AlignedBucket(cal, Midnight(cal, to / MS_PER_DAY), g);
    EveryStartIsThere(cal, BucketStart(cal, from, g), BucketStart(cal, to, g), g, s);
  }

  // ----- The years 0 to 99 -------------------------------------------------

  lemma MonthOrder(cal: Calendar, d: int, m: int)
    ensures d < cal(m) <==> MonthOf(cal, d) < m
  {
    var n := MonthOf(cal, d);
    if n < m { MonthsAscend(cal, n + 1, m); } else { MonthsAscend(cal, m, n); }
  }

  lemma MonthShifts(cal: Calendar, d: int)
    requires TwoDigitYear(MonthOf(cal, d))
    ensures var m := MonthOf(cal, d);
            && cal(m + SHIFT) <= Midnight(cal, d) <= cal(m + SHIFT + 1)
            && (m != 1 ==> Midnight(cal, d) < cal(m + SHIFT + 1))
            && cal(SHIFT) <= Midnight(cal, d) < cal(SHIFT + YEAR_100)
  {
    var m := MonthOf(cal, d);
    assert RepeatsAt(cal, m);
    MonthsAscend(cal, SHIFT, m + SHIFT);
    MonthsAscend(cal, m + SHIFT + 1, SHIFT + YEAR_100);
  }

  lemma MidnightIsMonotone(cal: Calendar, c: int, d: int)
    requires c <= d && TwoDigitYear(MonthOf(cal, c)) && TwoDigitYear(MonthOf(cal, d))
    ensures Midnight(cal, c) <= Midnight(cal, d)
  {
    var m, n := MonthOf(cal, c), MonthOf(cal, d);
    MonthsFollowDays(cal, c, d);
    if m < n {
      MonthShifts(cal, c);
      MonthShifts(cal, d);
      MonthsAscend(cal, m + SHIFT + 1, n + SHIFT);
    }
  }

  lemma YearStartsAreAligned(cal: Calendar, g: Granularity)
    ensures Aligned(cal, cal(SHIFT), g)
  {
    MonthOfStart(cal, SHIFT);
  }

  /** What is read as a day of 1900 to 1999 gets a bucket and a key there. */
  lemma BucketOfTwoDigitYear(cal: Calendar, d: int, g: Granularity)
    requires TwoDigitYear(MonthOf(cal, d))
    ensures var s := BucketDay(cal, d, g);
            Aligned(cal, s, g) && SHIFT <= MonthOf(cal, s) < SHIFT + YEAR_100 && Label(cal, d, g) == WholeDate(s)
  {
    var s := BucketDay(cal, d, g);
    MonthShifts(cal, d);
    AlignedBucket(cal, Midnight(cal, d), g);
    YearStartsAreAligned(cal, g);
    AlignIsMonotone(cal, cal(SHIFT), Midnight(cal, d), g);
    MonthOrder(cal, s, SHIFT);
    MonthOrder(cal, s, SHIFT + YEAR_100);
  }

  // ----- Every date in one bucket ------------------------------------------

  /** Between two dates whose buckets are in order only this can lie outside: the years 0 to 99. */
  predicate Fits(cal: Calendar, from: int, to: int, g: Granularity) {
    var m, n := MonthOf(cal, from / MS_PER_DAY), MonthOf(cal, to / MS_PER_DAY);
    && (TwoDigitYear(m) ==> TwoDigitYear(n))
    && (m < 0 && n >= YEAR_100 ==> Align(cal, cal(SHIFT + YEAR_100) - 1, g) <= BucketStart(cal, to, g))
  }

  /** The one bucket of the series that holds the midnight of the date is the date's own. */
  predicate HoldsDate(cal: Calendar, starts: seq<int>, date: int, g: Granularity, i: int) {
    && 0 <= i < |starts| && starts[i] == BucketStart(cal, date, g)
    && forall j :: 0 <= j < |starts| ==> (Covers(cal, starts[j], Midnight(cal, date / MS_PER_DAY), g) <==> j == i)
  }

  predicate Covers(cal: Calendar, s: int, d: int, g: Granularity) { s <= d < AddBucket(cal, s, g) }

  predicate InOneBucket(cal: Calendar, from: int, to: int, date: int, g: Granularity) {
    var starts := BucketStarts(cal, from, to, g);
    exists i | 0 <= i < |starts| :: HoldsDate(cal, starts, date, g, i)
  }

  lemma BucketsAreDisjoint(cal: Calendar, s: int, t: int, d: int, g: Granularity)
    requires Aligned(cal, s, g) && Aligned(cal, t, g) && Covers(cal, s, d, g) && Covers(cal, t, d, g)
    ensures s == t
  {
    if s < t { NoStartBetween(cal, s, t, g); }
    if t < s { NoStartBetween(cal, t, s, g); }
  }

  lemma InOneBucketIffBetween(cal: Calendar, from: int, to: int, date: int, g: Granularity)
    ensures InOneBucket(cal, from, to, date, g) <==>
            BucketStart(cal, from, g) <= BucketStart(cal, date, g) <= BucketStart(cal, to, g)
  {
    var starts, s, d := BucketStarts(cal, from, to, g), BucketStart(cal, date, g), Midnight(cal, date / MS_PER_DAY);
    AlignedBucket(cal, d, g);
    StartsAreThese(cal, from, to, g);
    if IsStart(cal, from, to, g, s) {
      StartIsThere(cal, from, to, g, s);
      var i :| 0 <= i < |starts| && starts[i] == s;
      forall j | 0 <= j < |starts| ensures Covers(cal, starts[j], d, g) <==> j == i {
        if Covers(cal, starts[j], d, g) { BucketsAreDisjoint(cal, starts[j], s, d, g); }
      }
      assert HoldsDate(cal, starts, date, g, i);
    }
  }

  lemma AtMostLastOf1999(cal: Calendar, d: int, g: Granularity)
    requires TwoDigitYear(MonthOf(cal, d))
    ensures BucketDay(cal, d, g) <= Align(cal, cal(SHIFT + YEAR_100) - 1, g)
  {
    MonthShifts(cal, d);
    AlignIsMonotone(cal, Midnight(cal, d), cal(SHIFT + YEAR_100) - 1, g);
  }

  lemma FitsKeepsOrder(cal: Calendar, from: int, to: int, date: int, g: Granularity)
    requires from <= date <= to && Fits(cal, from, to, g)
    ensures BucketStart(cal, from, g) <= BucketStart(cal, date, g) <= BucketStart(cal, to, g)
  {
    var a, d, b := from / MS_PER_DAY, date / MS_PER_DAY, to / MS_PER_DAY;
    MonthsFollowDays(cal, a, d);
    MonthsFollowDays(cal, d, b);
    InOrder(cal, a, d, g);
    if TwoDigitYear(MonthOf(cal, d)) && MonthOf(cal, b) >= YEAR_100 {
      AtMostLastOf1999(cal, d, g);
    } else {
      InOrder(cal, d, b, g);
    }
  }

  /** Only from the years 0 to 99 to a later year can a bucket go back. */
  lemma InOrder(cal: Calendar, c: int, d: int, g: Granularity)
    requires c <= d && (TwoDigitYear(MonthOf(cal, c)) ==> TwoDigitYear(MonthOf(cal, d)))
    ensures BucketDay(cal, c, g) <= BucketDay(cal, d, g)
  {
    MonthsFollowDays(cal, c, d);
    if TwoDigitYear(MonthOf(cal, c)) {
      MidnightIsMonotone(cal, c, d);
    } else if TwoDigitYear(MonthOf(cal, d)) {
      MonthShifts(cal, d);
      MonthOrder(cal, d, YEAR_100);
      MonthsAscend(cal, YEAR_100, SHIFT);
    }
    AlignIsMonotone(cal, Midnight(cal, c), Midnight(cal, d), g);
  }

  lemma WholeDays(d: int)
    ensures d * MS_PER_DAY / MS_PER_DAY == d
  {
  }

  lemma DayBetween(from: int, to: int, d: int)
    requires from / MS_PER_DAY < d <= to / MS_PER_DAY
    ensures from < d * MS_PER_DAY <= to && d * MS_PER_DAY / MS_PER_DAY == d
  {
    WholeDays(d);
  }

  lemma DateOfDay(from: int, to: int, d: int) returns (date: int)
    requires from / MS_PER_DAY <= d <= to / MS_PER_DAY && from <= to
    ensures from <= date <= to && date / MS_PER_DAY == d
  {
    date := from;
    if from / MS_PER_DAY < d {
      DayBetween(from, to, d);
      date := d * MS_PER_DAY;
    }
  }

  lemma LastDayOf99(cal: Calendar)
    ensures MonthOf(cal, cal(YEAR_100) - 1) == YEAR_100 - 1
    ensures Midnight(cal, cal(YEAR_100) - 1) == cal(SHIFT + YEAR_100) - 1
  {
    assert RegularAt(cal, YEAR_100 - 1) && RepeatsAt(cal, YEAR_100 - 1);
    MonthIsUnique(cal, cal(YEAR_100) - 1, YEAR_100 - 1);
  }

  lemma LastDayOf99IsLate(cal: Calendar, g: Granularity)
    ensures MonthOf(cal, cal(YEAR_100)) == YEAR_100
    ensures BucketDay(cal, cal(YEAR_100), g) < cal(SHIFT) <= BucketDay(cal, cal(YEAR_100) - 1, g)
  {
    LastDayOf99(cal);
    BucketOfTwoDigitYear(cal, cal(YEAR_100) - 1, g);
    MonthOrder(cal, BucketDay(cal, cal(YEAR_100) - 1, g), SHIFT);
    MonthOfStart(cal, YEAR_100);
    AlignedBucket(cal, cal(YEAR_100), g);
    MonthsAscend(cal, YEAR_100, SHIFT);
  }

  /** The first day of year 100 is before the bucket of any earlier day of the years 0 to 99. */
  lemma LeavingLosesDay(cal: Calendar, a: int, g: Granularity)
    requires TwoDigitYear(MonthOf(cal, a))
    ensures BucketDay(cal, cal(YEAR_100), g) < BucketDay(cal, a, g)
  {
    BucketOfTwoDigitYear(cal, a, g);
    MonthOrder(cal, BucketDay(cal, a, g), SHIFT);
    LastDayOf99IsLate(cal, g);
  }

  /** A day of a range that does not fit: the first of year 100, or the last of year 99. */
  lemma MisfitLosesDay(cal: Calendar, from: int, to: int, g: Granularity) returns (d: int)
    requires from <= to && !Fits(cal, from, to, g)
    ensures from / MS_PER_DAY <= d <= to / MS_PER_DAY
    ensures BucketDay(cal, d, g) < BucketStart(cal, from, g) || BucketStart(cal, to, g) < BucketDay(cal, d, g)
  {
    var a, b := from / MS_PER_DAY, to / MS_PER_DAY;
    MonthsFollowDays(cal, a, b);
    MonthOrder(cal, a, YEAR_100);
    MonthOrder(cal, b, YEAR_100);
    if TwoDigitYear(MonthOf(cal, a)) {
      d := cal(YEAR_100);
      LeavingLosesDay(cal, a, g);
    } else {
      d := cal(YEAR_100) - 1;
      CrossingLosesDay(cal, from, to, g);
    }
  }

  /** Only a range that crosses the years 0 to 99 and ends before the last bucket of 1999 is left. */
  lemma CrossingLosesDay(cal: Calendar, from: int, to: int, g: Granularity)
    requires !Fits(cal, from, to, g) && !TwoDigitYear(MonthOf(cal, from / MS_PER_DAY))
    ensures MonthOf(cal, from / MS_PER_DAY) < 0 && MonthOf(cal, to / MS_PER_DAY) >= YEAR_100
    ensures BucketStart(cal, to, g) < BucketDay(cal, cal(YEAR_100) - 1, g)
  {
    LastDayOf99(cal);
  }

  lemma MisfitLosesDate(cal: Calendar, from: int, to: int, g: Granularity) returns (date: int)
    requires from <= to && !Fits(cal, from, to, g)
    ensures from <= date <= to && !InOneBucket(cal, from, to, date, g)
  {
    var d := MisfitLosesDay(cal, from, to, g);
    date := DateOfDay(from, to, d);
    InOneBucketIffBetween(cal, from, to, date, g);
  }

  /**
   * Every date of the range lies in exactly one bucket exactly when the range
   * does not leave the years 0 to 99, nor cross them to a bucket before the
   * last of 1999.
   */
  lemma EveryDateInOneBucketIffFits(cal: Calendar, from: int, to: int, g: Granularity)
    requires from <= to
    ensures (forall date | from <= date <= to :: InOneBucket(cal, from, to, date, g)) <==> Fits(cal, from, to, g)
  {
    if Fits(cal, from, to, g) {
      forall date | from <= date <= to ensures InOneBucket(cal, from, to, date, g) {
        FitsKeepsOrder(cal, from, to, date, g);
        InOneBucketIffBetween(cal, from, to, date, g);
      }
    } else {
      var date := MisfitLosesDate(cal, from, to, g);
    }
  }

  /** So from the last day of year 99 to the first of year 100, where there is no bucket at all. */
  lemma Year99StartsTooLate(cal: Calendar, from: int, to: int, g: Granularity)
    requires from / MS_PER_DAY == cal(YEAR_100) - 1 && to / MS_PER_DAY == cal(YEAR_100)
    ensures BucketStarts(cal, from, to, g) == [] && !Fits(cal, from, to, g)
  {
    LastDayOf99(cal);
    LastDayOf99IsLate(cal, g);
    AlignedBucket(cal, Midnight(cal, from / MS_PER_DAY), g);
    StartsUnfold(cal, BucketStart(cal, from, g), BucketStart(cal, to, g), g);
  }
}
