/**
 * When the counts of a time series add up to the number of dates.
 */
module TimeSeriesCounts {
  import opened Calendars
  import opened TimeSeries

  // ----- Conservation ------------------------------------------------------

  function Total(cal: Calendar, starts: seq<int>, dates: seq<int>, g: Granularity): nat {
    if starts == [] then 0 else Occurrences(cal, dates, g, Label(cal, starts[0], g)) + Total(cal, starts[1..], dates, g)
  }

  function Holders(cal: Calendar, starts: seq<int>, g: Granularity, k: Key): nat {
    if starts == [] then 0 else (if Label(cal, starts[0], g) == k then 1 else 0) + Holders(cal, starts[1..], g, k)
  }

  /** Every date is counted once for each bucket that carries its key. */
  lemma {:induction false} TotalByDate(cal: Calendar, starts: seq<int>, dates: seq<int>, g: Granularity)
    requires dates != []
    ensures Total(cal, starts, dates, g) ==
            Holders(cal, starts, g, BucketKey(cal, dates[0], g)) + Total(cal, starts, dates[1..], g)
  {
    if starts != [] { TotalByDate(cal, starts[1..], dates, g); }
  }

  lemma {:induction false} TotalOfNothing(cal: Calendar, starts: seq<int>, g: Granularity)
    ensures Total(cal, starts, [], g) == 0
  {
    if starts != [] { TotalOfNothing(cal, starts[1..], g); }
  }

  lemma {:induction false} OneHolderEach(cal: Calendar, starts: seq<int>, dates: seq<int>, g: Granularity)
    requires forall i :: 0 <= i < |dates| ==> Holders(cal, starts, g, BucketKey(cal, dates[i], g)) == 1
    ensures Total(cal, starts, dates, g) == |dates|
  {
    if dates == [] { TotalOfNothing(cal, starts, g); }
    else {
      TotalByDate(cal, starts, dates, g);
      OneHolderEach(cal, starts, dates[1..], g);
    }
  }

  lemma TotalOfOne(cal: Calendar, starts: seq<int>, date: int, g: Granularity)
    ensures Total(cal, starts, [date], g) == Holders(cal, starts, g, BucketKey(cal, date, g))
  {
    TotalByDate(cal, starts, [date], g);
    assert [date][1..] == [];
    TotalOfNothing(cal, starts, g);
  }

  lemma {:induction false} NoHolder(cal: Calendar, starts: seq<int>, g: Granularity, k: Key)
    requires forall s :: s in starts ==> Label(cal, s, g) != k
    ensures Holders(cal, starts, g, k) == 0
  {
    if starts != [] { NoHolder(cal, starts[1..], g, k); }
  }

  lemma {:induction false} SomeHolder(cal: Calendar, starts: seq<int>, g: Granularity, k: Key, s: int)
    requires s in starts && Label(cal, s, g) == k
    ensures Holders(cal, starts, g, k) >= 1
  {
    if starts[0] != s { SomeHolder(cal, starts[1..], g, k, s); }
  }

  lemma {:induction false} TwoHolders(cal: Calendar, starts: seq<int>, g: Granularity, k: Key, s: int, t: int)
    requires s in starts && t in starts && s != t && Label(cal, s, g) == k && Label(cal, t, g) == k
    ensures Holders(cal, starts, g, k) >= 2
  {
    if starts[0] == s { SomeHolder(cal, starts[1..], g, k, t); }
    else if starts[0] == t { SomeHolder(cal, starts[1..], g, k, s); }
    else { TwoHolders(cal, starts[1..], g, k, s, t); }
  }

  lemma {:induction false} OneHolder(cal: Calendar, starts: seq<int>, g: Granularity, k: Key, s: int)
    requires forall i, j :: 0 <= i < j < |starts| ==> starts[i] < starts[j]
    requires s in starts && Label(cal, s, g) == k && forall t :: t in starts && t != s ==> Label(cal, t, g) != k
    ensures Holders(cal, starts, g, k) == 1
  {
    if starts[0] == s { NoHolder(cal, starts[1..], g, k); } else { OneHolder(cal, starts[1..], g, k, s); }
  }

  predicate InRange(dates: seq<int>, from: int, to: int) { forall i :: 0 <= i < |dates| ==> from <= dates[i] <= to }

  /** The counts of the buckets add up to the number of dates. */
  predicate AddsUp(cal: Calendar, from: int, to: int, g: Granularity, dates: seq<int>) {
    Total(cal, BucketStarts(cal, from, to, g), dates, g) == |dates|
  }

  ghost predicate Conserves(cal: Calendar, from: int, to: int, g: Granularity) {
    forall dates: seq<int> :: InRange(dates, from, to) ==> AddsUp(cal, from, to, g, dates)
  }

  /** One bucket carries the key of this day. */
  predicate CountedOnce(cal: Calendar, from: int, to: int, g: Granularity, d: int) {
    Holders(cal, BucketStarts(cal, from, to, g), g, Label(cal, d, g)) == 1
  }

  lemma CountedOnceConserves(cal: Calendar, from: int, to: int, g: Granularity)
    requires forall d :: from / MS_PER_DAY <= d <= to / MS_PER_DAY ==> CountedOnce(cal, from, to, g, d)
    ensures Conserves(cal, from, to, g)
  {
    var starts := BucketStarts(cal, from, to, g);
    forall dates: seq<int> | InRange(dates, from, to) ensures AddsUp(cal, from, to, g, dates) {
      forall i | 0 <= i < |dates| ensures Holders(cal, starts, g, BucketKey(cal, dates[i], g)) == 1 {
        assert CountedOnce(cal, from, to, g, dates[i] / MS_PER_DAY);
      }
      OneHolderEach(cal, starts, dates, g);
    }
  }

  lemma MiscountedDay(cal: Calendar, from: int, to: int, g: Granularity, d: int)
    requires from <= to && from / MS_PER_DAY <= d <= to / MS_PER_DAY && !CountedOnce(cal, from, to, g, d)
    ensures !Conserves(cal, from, to, g)
  {
    var date := DateOfDay(from, to, d);
    TotalOfOne(cal, BucketStarts(cal, from, to, g), date, g);
    assert InRange([date], from, to) && !AddsUp(cal, from, to, g, [date]);
  }

  lemma HeldOnce(cal: Calendar, from: int, to: int, g: Granularity, d: int, s: int)
    requires IsStart(cal, from, to, g, s) && Label(cal, s, g) == Label(cal, d, g)
    requires forall t :: IsStart(cal, from, to, g, t) && t != s ==> Label(cal, t, g) != Label(cal, d, g)
    ensures CountedOnce(cal, from, to, g, d)
  {
    var starts := BucketStarts(cal, from, to, g);
    StartsAreThese(cal, from, to, g);
    StartIsThere(cal, from, to, g, s);
    forall t | t in starts && t != s ensures Label(cal, t, g) != Label(cal, d, g) {
      assert IsStart(cal, from, to, g, t);
    }
    OneHolder(cal, starts, g, Label(cal, d, g), s);
  }

  lemma HeldTwice(cal: Calendar, from: int, to: int, g: Granularity, d: int, s: int, t: int)
    requires IsStart(cal, from, to, g, s) && IsStart(cal, from, to, g, t) && s != t
    requires Label(cal, s, g) == Label(cal, d, g) == Label(cal, t, g)
    ensures !CountedOnce(cal, from, to, g, d)
  {
    StartIsThere(cal, from, to, g, s);
    StartIsThere(cal, from, to, g, t);
    TwoHolders(cal, BucketStarts(cal, from, to, g), g, Label(cal, d, g), s, t);
  }

  lemma HeldNowhere(cal: Calendar, from: int, to: int, g: Granularity, d: int)
    requires forall t :: IsStart(cal, from, to, g, t) ==> Label(cal, t, g) != Label(cal, d, g)
    ensures !CountedOnce(cal, from, to, g, d)
  {
    var starts := BucketStarts(cal, from, to, g);
    StartsAreThese(cal, from, to, g);
    forall t | t in starts ensures Label(cal, t, g) != Label(cal, d, g) { assert IsStart(cal, from, to, g, t); }
    NoHolder(cal, starts, g, Label(cal, d, g));
  }

  // ----- Ranges that stay clear of the years 0 to 99 ------------------------

  /** No bucket of the range starts in the years 0 to 99. */
  predicate Clear(cal: Calendar, from: int, to: int, g: Granularity) {
    || MonthOf(cal, to / MS_PER_DAY) < 0
    || (MonthOf(cal, from / MS_PER_DAY) >= YEAR_100 && MonthOf(cal, BucketStart(cal, from, g)) >= YEAR_100)
  }

  lemma ClearStart(cal: Calendar, from: int, to: int, g: Granularity, s: int)
    requires Clear(cal, from, to, g) && IsStart(cal, from, to, g, s)
    ensures BucketDay(cal, s, g) == s && Label(cal, s, g) == KeyOf(cal, s)
  {
    if MonthOf(cal, to / MS_PER_DAY) < 0 {
      AlignedBucket(cal, to / MS_PER_DAY, g);
      MonthsFollowDays(cal, s, to / MS_PER_DAY);
    } else {
      MonthsFollowDays(cal, BucketStart(cal, from, g), s);
    }
  }

  lemma ClearDay(cal: Calendar, from: int, to: int, g: Granularity, d: int)
    requires Clear(cal, from, to, g) && from / MS_PER_DAY <= d <= to / MS_PER_DAY
    ensures BucketDay(cal, d, g) == Align(cal, d, g) && IsStart(cal, from, to, g, Align(cal, d, g))
  {
    MonthsFollowDays(cal, from / MS_PER_DAY, d);
    MonthsFollowDays(cal, d, to / MS_PER_DAY);
    AlignedBucket(cal, d, g);
    InOrder(cal, from / MS_PER_DAY, d, g);
    InOrder(cal, d, to / MS_PER_DAY, g);
  }

  /** Two neighbouring buckets of one month whose year the ten characters cannot hold. */
  predicate Collide(cal: Calendar, s: int, t: int) {
    MonthOf(cal, s) == MonthOf(cal, t) && !FourDigits(MonthOf(cal, s))
  }

  predicate NoNeighboursCollide(cal: Calendar, starts: seq<int>) {
    forall i :: 0 <= i < |starts| - 1 ==> !Collide(cal, starts[i], starts[i + 1])
  }

  lemma KeysAreDistinct(cal: Calendar, starts: seq<int>, i: nat, j: nat)
    requires forall a, b :: 0 <= a < b < |starts| ==> starts[a] < starts[b]
    requires NoNeighboursCollide(cal, starts) && i < j < |starts|
    ensures KeyOf(cal, starts[i]) != KeyOf(cal, starts[j])
  {
    MonthsFollowDays(cal, starts[i], starts[i + 1]);
    MonthsFollowDays(cal, starts[i + 1], starts[j]);
    assert !Collide(cal, starts[i], starts[i + 1]);
  }

  lemma ClearLabelsDiffer(cal: Calendar, from: int, to: int, g: Granularity, s: int, t: int)
    requires Clear(cal, from, to, g) && NoNeighboursCollide(cal, BucketStarts(cal, from, to, g))
    requires IsStart(cal, from, to, g, s) && IsStart(cal, from, to, g, t) && s != t
    ensures KeyOf(cal, s) != KeyOf(cal, t)
  {
    var starts := BucketStarts(cal, from, to, g);
    StartsAreThese(cal, from, to, g);
    StartIsThere(cal, from, to, g, s);
    StartIsThere(cal, from, to, g, t);
    var i :| 0 <= i < |starts| && starts[i] == s;
    var j :| 0 <= j < |starts| && starts[j] == t;
    if i < j { KeysAreDistinct(cal, starts, i, j); } else { KeysAreDistinct(cal, starts, j, i); }
  }

  lemma ClearDayIsCountedOnce(cal: Calendar, from: int, to: int, g: Granularity, d: int)
    requires Clear(cal, from, to, g) && from / MS_PER_DAY <= d <= to / MS_PER_DAY
    requires NoNeighboursCollide(cal, BucketStarts(cal, from, to, g))
    ensures CountedOnce(cal, from, to, g, d)
  {
    var s := Align(cal, d, g);
    ClearDay(cal, from, to, g, d);
    ClearStart(cal, from, to, g, s);
    forall t | IsStart(cal, from, to, g, t) && t != s ensures Label(cal, t, g) != KeyOf(cal, s) {
      ClearStart(cal, from, to, g, t);
      ClearLabelsDiffer(cal, from, to, g, s, t);
    }
    HeldOnce(cal, from, to, g, d, s);
  }

  lemma CollisionCountsTwice(cal: Calendar, from: int, to: int, g: Granularity, i: nat)
    requires from <= to && Clear(cal, from, to, g)
    requires var starts := BucketStarts(cal, from, to, g);
             i < |starts| - 1 && Collide(cal, starts[i], starts[i + 1])
    ensures !Conserves(cal, from, to, g)
  {
    var starts := BucketStarts(cal, from, to, g);
    var s, t := starts[i], starts[i + 1];
    StartsAreThese(cal, from, to, g);
    ClearStart(cal, from, to, g, s);
    ClearStart(cal, from, to, g, t);
    HeldTwice(cal, from, to, g, t, s, t);
    LaterStartIsInRange(cal, from, to, g, s, t);
    MiscountedDay(cal, from, to, g, t);
  }

  lemma LaterStartIsInRange(cal: Calendar, from: int, to: int, g: Granularity, s: int, t: int)
    requires Clear(cal, from, to, g) && from <= to
    requires IsStart(cal, from, to, g, s) && IsStart(cal, from, to, g, t) && s < t
    ensures from / MS_PER_DAY < t <= to / MS_PER_DAY
  {
    var a, b := from / MS_PER_DAY, to / MS_PER_DAY;
    ClearDay(cal, from, to, g, a);
    ClearDay(cal, from, to, g, b);
    AlignedBucket(cal, a, g);
    AlignedBucket(cal, b, g);
    NoStartBetween(cal, Align(cal, a, g), t, g);
  }

  lemma ClearRange(cal: Calendar, from: int, to: int, g: Granularity)
    requires from <= to && Clear(cal, from, to, g)
    ensures Conserves(cal, from, to, g) <==> NoNeighboursCollide(cal, BucketStarts(cal, from, to, g))
  {
    var starts := BucketStarts(cal, from, to, g);
    if NoNeighboursCollide(cal, starts) {
      forall d | from / MS_PER_DAY <= d <= to / MS_PER_DAY ensures CountedOnce(cal, from, to, g, d) {
        ClearDayIsCountedOnce(cal, from, to, g, d);
      }
      CountedOnceConserves(cal, from, to, g);
    } else {
      var i :| 0 <= i < |starts| - 1 && Collide(cal, starts[i], starts[i + 1]);
      CollisionCountsTwice(cal, from, to, g, i);
    }
  }

  /** The week of 1 January 100 starts in year 99: its bucket is labelled with a day of 1999, its dates are not. */
  lemma FirstWeekOf100IsLost(cal: Calendar, from: int, to: int, g: Granularity, d: int)
    requires from / MS_PER_DAY <= d <= to / MS_PER_DAY && from <= to
    requires MonthOf(cal, d) >= YEAR_100 && TwoDigitYear(MonthOf(cal, BucketDay(cal, d, g)))
    ensures !Conserves(cal, from, to, g)
  {
    var s := BucketDay(cal, d, g);
    AlignedBucket(cal, d, g);
    forall t | IsStart(cal, from, to, g, t) ensures Label(cal, t, g) != Label(cal, d, g) {
      if TwoDigitYear(MonthOf(cal, t)) { BucketOfTwoDigitYear(cal, t, g); }
    }
    HeldNowhere(cal, from, to, g, d);
    MiscountedDay(cal, from, to, g, d);
  }

  // ----- Ranges that touch the years 0 to 99 ---------------------------------

  lemma InsideDayIsCountedOnce(cal: Calendar, from: int, to: int, g: Granularity, d: int)
    requires TwoDigitYear(MonthOf(cal, from / MS_PER_DAY)) && TwoDigitYear(MonthOf(cal, to / MS_PER_DAY))
    requires from / MS_PER_DAY <= d <= to / MS_PER_DAY && TwoDigitYear(MonthOf(cal, d))
    ensures CountedOnce(cal, from, to, g, d)
  {
    InOrder(cal, from / MS_PER_DAY, d, g);
    InOrder(cal, d, to / MS_PER_DAY, g);
    BucketOfTwoDigitYear(cal, d, g);
    var s := BucketDay(cal, d, g);
    LabelInside(cal, from, to, g, s);
    forall t | IsStart(cal, from, to, g, t) && t != s ensures Label(cal, t, g) != WholeDate(s) {
      LabelInside(cal, from, to, g, t);
    }
    HeldOnce(cal, from, to, g, d, s);
  }

  lemma LabelInside(cal: Calendar, from: int, to: int, g: Granularity, t: int)
    requires TwoDigitYear(MonthOf(cal, from / MS_PER_DAY)) && TwoDigitYear(MonthOf(cal, to / MS_PER_DAY))
    requires IsStart(cal, from, to, g, t)
    ensures Label(cal, t, g) == WholeDate(t)
  {
    BucketOfTwoDigitYear(cal, from / MS_PER_DAY, g);
    BucketOfTwoDigitYear(cal, to / MS_PER_DAY, g);
    MonthsFollowDays(cal, BucketStart(cal, from, g), t);
    MonthsFollowDays(cal, t, BucketStart(cal, to, g));
  }

  /** Within these years both ends move together. */
  lemma InsideConserves(cal: Calendar, from: int, to: int, g: Granularity)
    requires TwoDigitYear(MonthOf(cal, from / MS_PER_DAY)) && TwoDigitYear(MonthOf(cal, to / MS_PER_DAY))
    ensures Conserves(cal, from, to, g)
  {
    forall d | from / MS_PER_DAY <= d <= to / MS_PER_DAY ensures CountedOnce(cal, from, to, g, d) {
      MonthsFollowDays(cal, from / MS_PER_DAY, d);
      MonthsFollowDays(cal, d, to / MS_PER_DAY);
      InsideDayIsCountedOnce(cal, from, to, g, d);
    }
    CountedOnceConserves(cal, from, to, g);
  }

  lemma LateBucketIfLateDay(cal: Calendar, to: int, g: Granularity)
    requires var n := MonthOf(cal, to / MS_PER_DAY); TwoDigitYear(n) || n >= SHIFT
    ensures BucketStart(cal, to, g) >= cal(SHIFT)
  {
    var b := to / MS_PER_DAY;
    if TwoDigitYear(MonthOf(cal, b)) {
      BucketOfTwoDigitYear(cal, b, g);
      MonthOrder(cal, BucketDay(cal, b, g), SHIFT);
    } else {
      MonthOrder(cal, b, SHIFT);
      YearStartsAreAligned(cal, g);
      AlignIsMonotone(cal, cal(SHIFT), b, g);
    }
  }

  lemma LabelSince1900(cal: Calendar, t: int, g: Granularity)
    requires Aligned(cal, t, g) && cal(SHIFT) <= t
    ensures Label(cal, t, g) == KeyOf(cal, t)
  {
    MonthOrder(cal, t, SHIFT);
  }

  /** A bucket starts at most a month before its dates. */
  lemma NotBeforeMonth(cal: Calendar, d: int, s: int, g: Granularity)
    requires s == Align(cal, d, g)
    ensures MonthOf(cal, s) >= MonthOf(cal, d) - 1
  {
    var m := MonthOf(cal, d);
    assert RegularAt(cal, m - 1);
    if g.Month? { MonthOfStart(cal, m); }
    MonthsFollowDays(cal, cal(m - 1), s);
    MonthOfStart(cal, m - 1);
  }

  lemma FirstDayOf100Label(cal: Calendar, g: Granularity)
    ensures var s := BucketDay(cal, cal(YEAR_100), g); s < cal(SHIFT) && Label(cal, cal(YEAR_100), g) == WholeDate(s)
  {
    var s := BucketDay(cal, cal(YEAR_100), g);
    LastDayOf99IsLate(cal, g);
    NotBeforeMonth(cal, cal(YEAR_100), s, g);
    MonthOrder(cal, s, SHIFT);
  }

  lemma FirstDayOf100IsNotHeld(cal: Calendar, from: int, to: int, g: Granularity)
    requires BucketStart(cal, from, g) >= cal(SHIFT)
    ensures !CountedOnce(cal, from, to, g, cal(YEAR_100))
  {
    FirstDayOf100Label(cal, g);
    forall t | IsStart(cal, from, to, g, t) ensures Label(cal, t, g) != Label(cal, cal(YEAR_100), g) {
      LabelSince1900(cal, t, g);
    }
    HeldNowhere(cal, from, to, g, cal(YEAR_100));
  }

  lemma LeavingLosesDate(cal: Calendar, from: int, to: int, g: Granularity)
    requires from <= to && TwoDigitYear(MonthOf(cal, from / MS_PER_DAY)) && MonthOf(cal, to / MS_PER_DAY) >= YEAR_100
    ensures !Conserves(cal, from, to, g)
  {
    LateBucketIfLateDay(cal, from, g);
    FirstDayOf100IsNotHeld(cal, from, to, g);
    MonthOrder(cal, from / MS_PER_DAY, YEAR_100);
    MonthOrder(cal, to / MS_PER_DAY, YEAR_100);
    MiscountedDay(cal, from, to, g, cal(YEAR_100));
  }

  /** The first bucket of year 0, of a month, a day, or the first Monday. */
  function FirstOfYear0(cal: Calendar, g: Granularity): int {
    if g == Week then cal(0) + (- cal(0) - 3) % 7 else cal(0)
  }

  lemma FirstOfYear0IsLabelled1900(cal: Calendar, g: Granularity)
    ensures var s := FirstOfYear0(cal, g);
            && cal(0) <= s && TwoDigitYear(MonthOf(cal, s)) && Aligned(cal, s, g)
            && BucketDay(cal, s, g) == cal(SHIFT) == BucketDay(cal, cal(0), g)
  {
    assert RegularAt(cal, 0);
    MonthOfStart(cal, 0);
    MonthOfStart(cal, SHIFT);
    MonthIsUnique(cal, FirstOfYear0(cal, g), 0);
  }

  /** A range that runs into years read as 1900 and later: its first day of year 0 is counted there and in 1900. */
  lemma EnteringCountsTwice(cal: Calendar, from: int, to: int, g: Granularity)
    requires MonthOf(cal, from / MS_PER_DAY) < 0 <= MonthOf(cal, to / MS_PER_DAY)
    requires BucketStart(cal, to, g) >= cal(SHIFT) && from <= to
    ensures !Conserves(cal, from, to, g)
  {
    var a, s, u := from / MS_PER_DAY, FirstOfYear0(cal, g), cal(SHIFT);
    FirstOfYear0IsLabelled1900(cal, g);
    YearStartsAreAligned(cal, g);
    MonthOfStart(cal, SHIFT);
    MonthOrder(cal, a, 0);
    MonthOrder(cal, to / MS_PER_DAY, 0);
    MonthOrder(cal, s, SHIFT);
    AlignedBucket(cal, a, g);
    HeldTwice(cal, from, to, g, cal(0), s, u);
    MiscountedDay(cal, from, to, g, cal(0));
  }

  lemma DaysAreStarts(cal: Calendar, from: int, to: int, d: int)
    requires !TwoDigitYear(MonthOf(cal, from / MS_PER_DAY)) && !TwoDigitYear(MonthOf(cal, to / MS_PER_DAY))
    requires from / MS_PER_DAY <= d <= to / MS_PER_DAY
    ensures IsStart(cal, from, to, Day, d)
  {
  }

  lemma LeapDayIsShifted(cal: Calendar)
    ensures var d := cal(2); cal(1) < d && Label(cal, d - 1, Day) == Label(cal, d, Day)
  {
    assert RegularAt(cal, 1) && RepeatsAt(cal, 1);
    MonthOfStart(cal, 2);
    MonthIsUnique(cal, cal(2) - 1, 1);
  }

  lemma LeapDayIsBetween(cal: Calendar, a: int, b: int)
    requires MonthOf(cal, a) < 0 && MonthOf(cal, b) >= YEAR_100
    ensures a < cal(2) - 1 && cal(2) <= b
  {
    MonthOrder(cal, a, 1);
    MonthOrder(cal, b, 2);
    assert RegularAt(cal, 1);
  }

  /** 29 February and 1 March of year 0 are both read as 1 March 1900. */
  lemma LeapDayCountsTwice(cal: Calendar, from: int, to: int)
    requires MonthOf(cal, from / MS_PER_DAY) < 0 && MonthOf(cal, to / MS_PER_DAY) >= YEAR_100 && from <= to
    ensures !Conserves(cal, from, to, Day)
  {
    var d := cal(2);
    LeapDayIsShifted(cal);
    LeapDayIsBetween(cal, from / MS_PER_DAY, to / MS_PER_DAY);
    DaysAreStarts(cal, from, to, d - 1);
    DaysAreStarts(cal, from, to, d);
    HeldTwice(cal, from, to, Day, d, d - 1, d);
    MiscountedDay(cal, from, to, Day, d);
  }

  lemma CrossingWeeksLose(cal: Calendar, from: int, to: int)
    requires MonthOf(cal, from / MS_PER_DAY) < 0 && MonthOf(cal, to / MS_PER_DAY) >= YEAR_100 && from <= to
    ensures !Conserves(cal, from, to, Week)
  {
    var d := cal(YEAR_100);
    assert RegularAt(cal, YEAR_100 - 1);
    MonthOfStart(cal, YEAR_100);
    MonthIsUnique(cal, Align(cal, d, Week), YEAR_100 - 1);
    MonthOrder(cal, from / MS_PER_DAY, YEAR_100);
    MonthOrder(cal, to / MS_PER_DAY, YEAR_100);
    FirstWeekOf100IsLost(cal, from, to, Week, d);
  }

  /** The month whose bucket carries the key of a day: its own, or March for 29 February of year 0. */
  lemma MonthOfHolder(cal: Calendar, d: int) returns (m: int)
    requires MonthOf(cal, d) < SHIFT
    ensures m == MonthOf(cal, d) || (m == 2 && MonthOf(cal, d) == 1)
    ensures Label(cal, cal(m), Month) == Label(cal, d, Month)
  {
    m := MonthOf(cal, d);
    MonthOfStart(cal, m);
    if TwoDigitYear(m) {
      MonthShifts(cal, d);
      MonthOfStart(cal, m + SHIFT);
      if Midnight(cal, d) < cal(m + SHIFT + 1) {
        MonthIsUnique(cal, Midnight(cal, d), m + SHIFT);
      } else {
        m := 2;
        MonthOfStart(cal, 2);
      }
    }
  }

  function MonthLabel(cal: Calendar, m: int): Key {
    if m < 0 then MonthOnly(m) else WholeDate(cal(if m < YEAR_100 then m + SHIFT else m))
  }

  lemma LabelOfMonth(cal: Calendar, m: int)
    requires m < SHIFT
    ensures Label(cal, cal(m), Month) == MonthLabel(cal, m)
  {
    MonthOfStart(cal, m);
    MonthOfStart(cal, m + SHIFT);
  }

  lemma MonthLabelsDiffer(cal: Calendar, m: int, n: int)
    requires m < n < SHIFT
    ensures MonthLabel(cal, m) != MonthLabel(cal, n)
  {
    if m >= 0 {
      MonthsAscend(cal, m + 1, n);
      MonthsAscend(cal, m + SHIFT + 1, n + SHIFT);
      MonthsAscend(cal, n + 1, m + SHIFT);
      assert RegularAt(cal, m) && RegularAt(cal, n) && RegularAt(cal, m + SHIFT);
    }
  }

  lemma HolderIsAStart(cal: Calendar, from: int, to: int, d: int, m: int)
    requires MonthOf(cal, from / MS_PER_DAY) < 0 && YEAR_100 <= MonthOf(cal, to / MS_PER_DAY)
    requires from / MS_PER_DAY <= d <= to / MS_PER_DAY
    requires m == MonthOf(cal, d) || (m == 2 && MonthOf(cal, d) == 1)
    ensures IsStart(cal, from, to, Month, cal(m))
  {
    var i, n := MonthOf(cal, from / MS_PER_DAY), MonthOf(cal, to / MS_PER_DAY);
    MonthsFollowDays(cal, from / MS_PER_DAY, d);
    MonthsFollowDays(cal, d, to / MS_PER_DAY);
    MonthOfStart(cal, m);
    MonthsAscend(cal, i, m);
    MonthsAscend(cal, m, n);
  }

  lemma StartIsAMonth(cal: Calendar, from: int, to: int, t: int)
    requires IsStart(cal, from, to, Month, t) && YEAR_100 <= MonthOf(cal, to / MS_PER_DAY)
    ensures t == cal(MonthOf(cal, t)) && MonthOf(cal, t) <= MonthOf(cal, to / MS_PER_DAY)
  {
    AlignedBucket(cal, to / MS_PER_DAY, Month);
    MonthsFollowDays(cal, t, to / MS_PER_DAY);
  }

  lemma OtherStartDiffers(cal: Calendar, from: int, to: int, t: int, m: int)
    requires IsStart(cal, from, to, Month, t) && YEAR_100 <= MonthOf(cal, to / MS_PER_DAY) < SHIFT
    requires m < SHIFT && t != cal(m)
    ensures Label(cal, t, Month) != MonthLabel(cal, m)
  {
    StartIsAMonth(cal, from, to, t);
    var n := MonthOf(cal, t);
    LabelOfMonth(cal, n);
    if m < n { MonthLabelsDiffer(cal, m, n); } else { MonthLabelsDiffer(cal, n, m); }
  }

  /** Months crossing these years to one before 1900: their buckets are labelled 1900 to 1999, and no other is. */
  lemma CrossingMonthsConserve(cal: Calendar, from: int, to: int)
    requires MonthOf(cal, from / MS_PER_DAY) < 0 && YEAR_100 <= MonthOf(cal, to / MS_PER_DAY) < SHIFT
    ensures Conserves(cal, from, to, Month)
  {
    forall d | from / MS_PER_DAY <= d <= to / MS_PER_DAY ensures CountedOnce(cal, from, to, Month, d) {
      CrossingDayIsCountedOnce(cal, from, to, d);
    }
    CountedOnceConserves(cal, from, to, Month);
  }

  lemma CrossingDayIsCountedOnce(cal: Calendar, from: int, to: int, d: int)
    requires MonthOf(cal, from / MS_PER_DAY) < 0 && YEAR_100 <= MonthOf(cal, to / MS_PER_DAY) < SHIFT
    requires from / MS_PER_DAY <= d <= to / MS_PER_DAY
    ensures CountedOnce(cal, from, to, Month, d)
  {
    MonthsFollowDays(cal, d, to / MS_PER_DAY);
    var m := MonthOfHolder(cal, d);
    HolderIsAStart(cal, from, to, d, m);
    LabelOfMonth(cal, m);
    forall t | IsStart(cal, from, to, Month, t) && t != cal(m) ensures Label(cal, t, Month) != MonthLabel(cal, m) {
      OtherStartDiffers(cal, from, to, t, m);
    }
    HeldOnce(cal, from, to, Month, d, cal(m));
  }

  // ----- The main result ---------------------------------------------------

  /**
   * From the years 0 to 99 a range may not lead out. Into them or past them
   * from before it may only lead by months, and to a month before 1900. Any
   * other range needs a first bucket outside them and no two neighbouring
   * buckets in one month of a year that is not written with four digits.
   */
  predicate Countable(cal: Calendar, from: int, to: int, g: Granularity) {
    var m, n := MonthOf(cal, from / MS_PER_DAY), MonthOf(cal, to / MS_PER_DAY);
    if TwoDigitYear(m) then TwoDigitYear(n)
    else if m < 0 <= n then g == Month && YEAR_100 <= n < SHIFT
    else
      && !TwoDigitYear(MonthOf(cal, BucketStart(cal, from, g)))
      && NoNeighboursCollide(cal, BucketStarts(cal, from, to, g))
  }

  lemma CrossingConserves(cal: Calendar, from: int, to: int, g: Granularity)
    requires from <= to && MonthOf(cal, from / MS_PER_DAY) < 0 <= MonthOf(cal, to / MS_PER_DAY)
    ensures Conserves(cal, from, to, g) <==> g == Month && YEAR_100 <= MonthOf(cal, to / MS_PER_DAY) < SHIFT
  {
    var n := MonthOf(cal, to / MS_PER_DAY);
    if n < YEAR_100 || n >= SHIFT {
      LateBucketIfLateDay(cal, to, g);
      EnteringCountsTwice(cal, from, to, g);
    } else {
      match g
      case Day => LeapDayCountsTwice(cal, from, to);
      case Week => CrossingWeeksLose(cal, from, to);
      case Month => CrossingMonthsConserve(cal, from, to);
    }
  }

  /** The counts add up to the number of dates, whatever dates of the range are given, exactly then. */
  lemma ConservesIffCountable(cal: Calendar, from: int, to: int, g: Granularity)
    requires from <= to
    ensures Conserves(cal, from, to, g) <==> Countable(cal, from, to, g)
  {
    var a, b := from / MS_PER_DAY, to / MS_PER_DAY;
    var m, n, first := MonthOf(cal, a), MonthOf(cal, b), BucketStart(cal, from, g);
    MonthsFollowDays(cal, a, b);
    if TwoDigitYear(m) {
      if TwoDigitYear(n) { InsideConserves(cal, from, to, g); } else { LeavingLosesDate(cal, from, to, g); }
    } else if m < 0 <= n {
      CrossingConserves(cal, from, to, g);
    } else {
      AlignedBucket(cal, a, g);
      MonthsFollowDays(cal, first, a);
      if m < 0 { ClearRange(cal, from, to, g); } else { LaterRange(cal, from, to, g); }
    }
  }

  lemma LaterRange(cal: Calendar, from: int, to: int, g: Granularity)
    requires from <= to && MonthOf(cal, from / MS_PER_DAY) >= YEAR_100
    ensures Conserves(cal, from, to, g) <==>
            && !TwoDigitYear(MonthOf(cal, BucketStart(cal, from, g)))
            && NoNeighboursCollide(cal, BucketStarts(cal, from, to, g))
  {
    var a := from / MS_PER_DAY;
    NotBeforeMonth(cal, a, BucketStart(cal, from, g), g);
    if TwoDigitYear(MonthOf(cal, BucketStart(cal, from, g))) {
      FirstWeekOf100IsLost(cal, from, to, g, a);
    } else {
      ClearRange(cal, from, to, g);
    }
  }

  /** So the counts add up from the first bucket of year 100 to the year 9999, and for months to any later year. */
  lemma ConservesInFourDigitYears(cal: Calendar, from: int, to: int, g: Granularity)
    requires from <= to && MonthOf(cal, from / MS_PER_DAY) >= YEAR_100 && BucketStart(cal, from, g) >= cal(YEAR_100)
    requires g == Month || MonthOf(cal, to / MS_PER_DAY) < YEAR_10000
    ensures Conserves(cal, from, to, g)
  {
    var starts := BucketStarts(cal, from, to, g);
    StartsAreThese(cal, from, to, g);
    MonthOrder(cal, BucketStart(cal, from, g), YEAR_100);
    AlignedBucket(cal, to / MS_PER_DAY, g);
    MonthsFollowDays(cal, from / MS_PER_DAY, to / MS_PER_DAY);
    forall i | 0 <= i < |starts| - 1 ensures !Collide(cal, starts[i], starts[i + 1]) {
      MonthsFollowDays(cal, BucketStart(cal, from, g), starts[i]);
      MonthsFollowDays(cal, starts[i], to / MS_PER_DAY);
    }
    ConservesIffCountable(cal, from, to, g);
  }

  /** In the calendar of ECMA-262: every range from 1970 to the end of 9999. */
  lemma ConservesSince1970(from: int, to: int, g: Granularity)
    requires 0 <= from <= to < DayFromYear(10000) * MS_PER_DAY
    ensures Conserves(Gregorian(), from, to, g)
  {
    var cal := Gregorian();
    var a, b := from / MS_PER_DAY, to / MS_PER_DAY;
    Januaries(100);
    Januaries(10000);
    assert cal(YEAR_100) == -683003 && cal(YEAR_10000) == DayFromYear(10000);
    assert RegularAt(cal, YEAR_100);
    MonthOrder(cal, a, YEAR_100 + 1);
    MonthOrder(cal, b, YEAR_10000);
    NotBeforeMonth(cal, a, BucketStart(cal, from, g), g);
    MonthOrder(cal, BucketStart(cal, from, g), YEAR_100);
    ConservesInFourDigitYears(cal, from, to, g);
  }

  /** Two days of one month that is written without its days: a registration of the second is counted in both. */
  lemma NeighbouringDaysCountTwice(cal: Calendar, d: int)
    requires MonthOf(cal, d) >= YEAR_100 && Collide(cal, d, d + 1)
    ensures !Conserves(cal, d * MS_PER_DAY, (d + 1) * MS_PER_DAY, Day)
  {
    TwoDays(cal, d);
    WholeDays(d);
    WholeDays(d + 1);
    CollisionCountsTwice(cal, d * MS_PER_DAY, (d + 1) * MS_PER_DAY, Day, 0);
  }

  lemma TwoDays(cal: Calendar, d: int)
    requires MonthOf(cal, d) >= YEAR_100 && MonthOf(cal, d + 1) >= YEAR_100
    ensures BucketStarts(cal, d * MS_PER_DAY, (d + 1) * MS_PER_DAY, Day) == [d, d + 1]
  {
    WholeDays(d);
    WholeDays(d + 1);
    assert Midnight(cal, d) == d && Midnight(cal, d + 1) == d + 1;
    assert Starts(cal, d + 2, d + 1, Day) == [];
    assert Starts(cal, d + 1, d + 1, Day) == [d + 1];
  }

  /** As on the first two days of the year 10000. */
  lemma YearTenThousandCollides(cal: Calendar)
    ensures var d := cal(YEAR_10000); !Conserves(cal, d * MS_PER_DAY, (d + 1) * MS_PER_DAY, Day)
  {
    var d := cal(YEAR_10000);
    assert RegularAt(cal, YEAR_10000);
    MonthIsUnique(cal, d, YEAR_10000);
    MonthIsUnique(cal, d + 1, YEAR_10000);
    NeighbouringDaysCountTwice(cal, d);
  }
}
