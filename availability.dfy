/**
 * The availability queries: which days, months and years the dropdowns
 * offer for the selected date, under the year range, the optional min/max
 * dates and the allowPast/allowFuture flags measured against "today".
 */
module Availability {
  import opened Calendar
  import opened IntSeqs
  import opened PickerTypes

  function Max(a: int, b: int): int { if a >= b then a else b }
  function Min(a: int, b: int): int { if a <= b then a else b }

  /** Same year and same month index. */
  predicate SameMonth(a: Date, b: Date) {
    a.year == b.year && a.month == b.month
  }

  /**
   * The past/future rule shared by the three fields: a value before the
   * current one needs allowPast, a value after it needs allowFuture.
   */
  predicate Permitted(value: int, current: int, allowPast: bool, allowFuture: bool) {
    (allowPast || value >= current) && (allowFuture || value <= current)
  }

  /** The day filter applied in today's month, as the source writes it: four cases in order. */
  predicate TodayDayFilter(allowPast: bool, allowFuture: bool, currentDay: int, day: int) {
    if !allowPast && !allowFuture then day == currentDay
    else if !allowPast then day >= currentDay
    else if !allowFuture then day <= currentDay
    else true
  }

  /** The source's four-case filter is exactly the two-sided past/future rule. */
  lemma TodayDayFilterIsPermitted(allowPast: bool, allowFuture: bool, currentDay: int, day: int)
    ensures TodayDayFilter(allowPast, allowFuture, currentDay, day) <==> Permitted(day, currentDay, allowPast, allowFuture)
  {
  }

  /** `if (cond) s = s.filter(p)` */
  function FilterIf(s: seq<int>, cond: bool, p: int -> bool): (r: seq<int>)
    ensures forall x :: x in r <==> x in s && (cond ==> p(x))
    ensures StrictlyAscending(s) ==> StrictlyAscending(r)
  {
    if cond then
      (if StrictlyAscending(s) then FilterAscending(s, p); Filter(s, p) else Filter(s, p))
    else s
  }

  // ---------------------------------------------------------------- days

  /** Whether day `d` may be chosen while `sel`'s month is selected. */
  predicate DaySelectable(c: Config, sel: Date, today: Date, d: int)
    requires 0 <= sel.month < 12
  {
    && 1 <= d <= GetDaysInMonth(sel.month, sel.year)
    && (SameMonth(sel, today) ==> Permitted(d, today.day, c.allowPast, c.allowFuture))
    && (c.minDate.Some? && SameMonth(sel, c.minDate.value) ==> d >= c.minDate.value.day)
    && (c.maxDate.Some? && SameMonth(sel, c.maxDate.value) ==> d <= c.maxDate.value.day)
  }

  /** `getAvailableDays()` for the selected date `sel`. */
  function AvailableDays(c: Config, sel: Date, today: Date): (r: seq<int>)
    requires 0 <= sel.month < 12
    ensures StrictlyAscending(r)
    ensures forall d :: d in r <==> DaySelectable(c, sel, today, d)
  {
    var all := Range(1, GetDaysInMonth(sel.month, sel.year) + 1);
    var nearToday := FilterIf(all, SameMonth(today, sel),
                              d => TodayDayFilter(c.allowPast, c.allowFuture, today.day, d));
    var aboveMin := match c.minDate
      case Some(mn) => FilterIf(nearToday, SameMonth(sel, mn), d => d >= mn.day)
      case None => nearToday;
    var days := match c.maxDate
      case Some(mx) => FilterIf(aboveMin, SameMonth(sel, mx), d => d <= mx.day)
      case None => aboveMin;
    assert forall d :: d in days <==> DaySelectable(c, sel, today, d) by {
      forall d ensures d in days <==> DaySelectable(c, sel, today, d) {
        TodayDayFilterIsPermitted(c.allowPast, c.allowFuture, today.day, d);
        assert d in nearToday <==> d in all && (SameMonth(today, sel) ==> Permitted(d, today.day, c.allowPast, c.allowFuture));
      }
    }
    days
  }

  /** Smallest and largest selectable day: the month's days cut by every bound that applies. */
  function DayWindow(c: Config, sel: Date, today: Date): (int, int)
    requires 0 <= sel.month < 12
  {
    var lo := 1;
    var lo := if SameMonth(sel, today) && !c.allowPast then Max(lo, today.day) else lo;
    var lo := if c.minDate.Some? && SameMonth(sel, c.minDate.value) then Max(lo, c.minDate.value.day) else lo;
    var hi := GetDaysInMonth(sel.month, sel.year);
    var hi := if SameMonth(sel, today) && !c.allowFuture then Min(hi, today.day) else hi;
    var hi := if c.maxDate.Some? && SameMonth(sel, c.maxDate.value) then Min(hi, c.maxDate.value.day) else hi;
    (lo, hi)
  }

  /** A strictly ascending sequence holding exactly lo..hi is that range. */
  lemma IsInterval(r: seq<int>, lo: int, hi: int)
    requires StrictlyAscending(r)
    requires forall x :: x in r <==> lo <= x <= hi
    ensures r == Range(lo, hi + 1)
  {
    AscendingUnique(r, Range(lo, hi + 1));
  }

  lemma DaySelectableInWindow(c: Config, sel: Date, today: Date, d: int)
    requires 0 <= sel.month < 12
    ensures DaySelectable(c, sel, today, d) <==> DayWindow(c, sel, today).0 <= d <= DayWindow(c, sel, today).1
  {
  }

  /** The available days are one unbroken run of consecutive days. */
  lemma AvailableDaysIsWindow(c: Config, sel: Date, today: Date)
    requires 0 <= sel.month < 12
    ensures AvailableDays(c, sel, today) == Range(DayWindow(c, sel, today).0, DayWindow(c, sel, today).1 + 1)
  {
    var w := DayWindow(c, sel, today);
    var r := AvailableDays(c, sel, today);
    forall d ensures d in r <==> w.0 <= d <= w.1 {
      DaySelectableInWindow(c, sel, today, d);
    }
    IsInterval(r, w.0, w.1);
  }

  /**
   * With both allowPast and allowFuture off and no min/max date, today's month
   * offers today's day and nothing else.
   */
  lemma OnlyTodayWhenNeitherPastNorFuture(c: Config, sel: Date, today: Date)
    requires 0 <= sel.month < 12 && SameMonth(sel, today)
    requires !c.allowPast && !c.allowFuture
    requires c.minDate.None? && c.maxDate.None?
    requires 1 <= today.day <= GetDaysInMonth(sel.month, sel.year)
    ensures AvailableDays(c, sel, today) == [today.day]
  {
    AvailableDaysIsWindow(c, sel, today);
    assert Range(today.day, today.day + 1) == [today.day];
  }

  // -------------------------------------------------------------- months

  /** Whether month index `m` may be chosen while `sel`'s year is selected. */
  predicate MonthSelectable(c: Config, sel: Date, today: Date, m: int) {
    && 0 <= m < 12
    && (c.minDate.Some? && sel.year == c.minDate.value.year ==> m >= c.minDate.value.month)
    && (c.maxDate.Some? && sel.year == c.maxDate.value.year ==> m <= c.maxDate.value.month)
    && (sel.year == today.year ==> Permitted(m, today.month, c.allowPast, c.allowFuture))
  }

  /** Lines 159-177 of `getAvailableMonths()`: the month indices the min/max dates leave in `sel`'s year. */
  function MonthsWithinBounds(c: Config, sel: Date): (r: seq<int>)
    ensures StrictlyAscending(r)
    ensures forall m :: m in r <==>
      && 0 <= m < 12
      && (c.minDate.Some? && sel.year == c.minDate.value.year ==> m >= c.minDate.value.month)
      && (c.maxDate.Some? && sel.year == c.maxDate.value.year ==> m <= c.maxDate.value.month)
  {
    var months := Range(0, 12);
    var months := match c.minDate
      case Some(mn) => FilterIf(months, sel.year == mn.year, m => m >= mn.month)
      case None => months;
    var months := match c.maxDate
      case Some(mx) => FilterIf(months, sel.year == mx.year, m => m <= mx.month)
      case None => months;
    months
  }

  /** `getAvailableMonths()` for the selected date `sel`. */
  function AvailableMonths(c: Config, sel: Date, today: Date): (r: seq<int>)
    ensures StrictlyAscending(r)
    ensures forall m :: m in r <==> MonthSelectable(c, sel, today, m)
  {
    var bounded := MonthsWithinBounds(c, sel);
    var noPast := FilterIf(bounded, !c.allowPast && today.year == sel.year, m => m >= today.month);
    var months := FilterIf(noPast, !c.allowFuture && today.year == sel.year, m => m <= today.month);
    assert forall m :: m in months <==> MonthSelectable(c, sel, today, m) by {
      forall m ensures m in months <==> MonthSelectable(c, sel, today, m) {
        assert m in months <==> m in noPast && (!c.allowFuture && today.year == sel.year ==> m <= today.month);
        assert m in noPast <==> m in bounded && (!c.allowPast && today.year == sel.year ==> m >= today.month);
      }
    }
    months
  }

  /** Smallest and largest selectable month index. */
  function MonthWindow(c: Config, sel: Date, today: Date): (int, int) {
    var lo := 0;
    var lo := if c.minDate.Some? && sel.year == c.minDate.value.year then Max(lo, c.minDate.value.month) else lo;
    var lo := if sel.year == today.year && !c.allowPast then Max(lo, today.month) else lo;
    var hi := 11;
    var hi := if c.maxDate.Some? && sel.year == c.maxDate.value.year then Min(hi, c.maxDate.value.month) else hi;
    var hi := if sel.year == today.year && !c.allowFuture then Min(hi, today.month) else hi;
    (lo, hi)
  }

  lemma MonthSelectableInWindow(c: Config, sel: Date, today: Date, m: int)
    ensures MonthSelectable(c, sel, today, m) <==> MonthWindow(c, sel, today).0 <= m <= MonthWindow(c, sel, today).1
  {
  }

  /** The available months are one unbroken run of consecutive months. */
  lemma AvailableMonthsIsWindow(c: Config, sel: Date, today: Date)
    ensures AvailableMonths(c, sel, today) == Range(MonthWindow(c, sel, today).0, MonthWindow(c, sel, today).1 + 1)
  {
    var w := MonthWindow(c, sel, today);
    var r := AvailableMonths(c, sel, today);
    forall m ensures m in r <==> w.0 <= m <= w.1 {
      MonthSelectableInWindow(c, sel, today, m);
    }
    IsInterval(r, w.0, w.1);
  }

  // --------------------------------------------------------------- years

  /** Whether year `y` may be chosen. */
  predicate YearSelectable(c: Config, today: Date, y: int) {
    && WithinYearBounds(c, y)
    && Permitted(y, today.year, c.allowPast, c.allowFuture)
  }

  /** Year `y` lies in the year range and between the min/max dates' years. */
  predicate WithinYearBounds(c: Config, y: int) {
    && c.yearRange.0 <= y <= c.yearRange.1
    && (c.minDate.Some? ==> y >= c.minDate.value.year)
    && (c.maxDate.Some? ==> y <= c.maxDate.value.year)
  }

  /** Lines 197-207 of `getAvailableYears()`: the year range narrowed by the min/max dates. */
  function BoundedYearRange(c: Config): (b: (int, int))
    ensures forall y :: WithinYearBounds(c, y) <==> b.0 <= y <= b.1
  {
    var (start, end) := c.yearRange;
    var start := if c.minDate.Some? then Max(start, c.minDate.value.year) else start;
    var end := if c.maxDate.Some? then Min(end, c.maxDate.value.year) else end;
    (start, end)
  }

  /** Lines 197-223 of `getAvailableYears()`: the selectable years, before any reversal. */
  function AscendingYears(c: Config, today: Date): (r: seq<int>)
    ensures forall y :: y in r <==> YearSelectable(c, today, y)
    ensures StrictlyAscending(r)
  {
    var (start, end) := BoundedYearRange(c);
    var all := Range(start, end + 1);
    var noPast := FilterIf(all, !c.allowPast, y => y >= today.year);
    var years := FilterIf(noPast, !c.allowFuture, y => y <= today.year);
    assert forall y :: y in years <==> YearSelectable(c, today, y) by {
      forall y ensures y in years <==> YearSelectable(c, today, y) {
        assert y in years <==> y in noPast && (!c.allowFuture ==> y <= today.year);
        assert y in noPast <==> y in all && (!c.allowPast ==> y >= today.year);
        assert y in all <==> start <= y <= end;
      }
    }
    years
  }

  /** `getAvailableYears()`: the selectable years, reversed when sortYears is "desc". */
  function AvailableYears(c: Config, today: Date): (r: seq<int>)
    ensures forall y :: y in r <==> YearSelectable(c, today, y)
    ensures c.sortYears == Asc ==> StrictlyAscending(r)
    ensures c.sortYears == Desc ==> StrictlyDescending(r)
  {
    var years := AscendingYears(c, today);
    ReversedFacts(years);
    if c.sortYears == Desc then Reversed(years) else years
  }

  /** Smallest and largest selectable year. */
  function YearWindow(c: Config, today: Date): (int, int) {
    var lo := c.yearRange.0;
    var lo := if c.minDate.Some? then Max(lo, c.minDate.value.year) else lo;
    var lo := if !c.allowPast then Max(lo, today.year) else lo;
    var hi := c.yearRange.1;
    var hi := if c.maxDate.Some? then Min(hi, c.maxDate.value.year) else hi;
    var hi := if !c.allowFuture then Min(hi, today.year) else hi;
    (lo, hi)
  }

  lemma YearSelectableInWindow(c: Config, today: Date, y: int)
    ensures YearSelectable(c, today, y) <==> YearWindow(c, today).0 <= y <= YearWindow(c, today).1
  {
  }

  /** In ascending order the available years are exactly the years of the window, and none when it is empty. */
  lemma AscendingYearsIsWindow(c: Config, today: Date)
    requires c.sortYears == Asc
    ensures AvailableYears(c, today) == Range(YearWindow(c, today).0, YearWindow(c, today).1 + 1)
    ensures YearWindow(c, today).0 > YearWindow(c, today).1 ==> AvailableYears(c, today) == []
  {
    var w := YearWindow(c, today);
    var r := AvailableYears(c, today);
    forall y ensures y in r <==> w.0 <= y <= w.1 {
      YearSelectableInWindow(c, today, y);
    }
    IsInterval(r, w.0, w.1);
  }

  /** "desc" lists exactly the years "asc" lists, in reverse. */
  lemma DescendingYearsReverseAscending(c: Config, today: Date)
    ensures AvailableYears(c.(sortYears := Desc), today) == Reversed(AvailableYears(c.(sortYears := Asc), today))
  {
    var asc := AvailableYears(c.(sortYears := Asc), today);
    var desc := AvailableYears(c.(sortYears := Desc), today);
    ReversedFacts(asc);
    forall y ensures y in desc <==> y in Reversed(asc) {
      assert YearSelectable(c.(sortYears := Desc), today, y) <==> YearSelectable(c.(sortYears := Asc), today, y);
    }
    ReversedIsUniqueDescending(desc, Reversed(asc));
  }

  /** A strictly descending sequence is determined by the set of its elements. */
  lemma ReversedIsUniqueDescending(a: seq<int>, b: seq<int>)
    requires StrictlyDescending(a) && StrictlyDescending(b)
    requires forall x :: x in a <==> x in b
    ensures a == b
  {
    var ra, rb := Reversed(a), Reversed(b);
    forall i, j | 0 <= i < j < |ra| ensures ra[i] < ra[j] {
      assert ra[i] == a[|a| - 1 - i] && ra[j] == a[|a| - 1 - j];
    }
    forall i, j | 0 <= i < j < |rb| ensures rb[i] < rb[j] {
      assert rb[i] == b[|b| - 1 - i] && rb[j] == b[|b| - 1 - j];
    }
    ReversedFacts(a);
    ReversedFacts(b);
    AscendingUnique(ra, rb);
    assert |a| == |b|;
    forall k | 0 <= k < |a| ensures a[k] == b[k] {
      assert a[k] == ra[|a| - 1 - k] && b[k] == rb[|b| - 1 - k];
    }
  }

  /** 2000..2005 reversed counts down from 2005. */
  lemma SixYearsReversed()
    ensures Reversed(Range(2000, 2006)) == [2005, 2004, 2003, 2002, 2001, 2000]
  {
    var r := Reversed(Range(2000, 2006));
    assert |r| == 6;
    forall k | 0 <= k < 6 ensures r[k] == 2005 - k {
      assert r[k] == Range(2000, 2006)[5 - k];
    }
  }

  /** A 2000..2005 range with no other constraint, sorted "desc", lists 2005 down to 2000. */
  lemma DescendingYearRangeExample(c: Config, today: Date)
    requires c.yearRange == (2000, 2005) && c.minDate.None? && c.maxDate.None?
    requires c.allowPast && c.allowFuture && c.sortYears == Desc
    ensures AvailableYears(c, today) == [2005, 2004, 2003, 2002, 2001, 2000]
  {
    var ascConfig := c.(sortYears := Asc);
    assert YearWindow(ascConfig, today) == (2000, 2005);
    AscendingYearsIsWindow(ascConfig, today);
    DescendingYearsReverseAscending(c, today);
    assert c.(sortYears := Desc) == c;
    SixYearsReversed();
  }
}
