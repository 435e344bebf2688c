/**
 * The date picker engine: the configuration resolved at construction (with
 * the age-derived bounds) and the one mutable selected date. In this model the
 * date is a value that only the four setters change, each of them reporting
 * through the registered callbacks.
 */
module Picker {
  import opened Calendar
  import opened PickerTypes
  import opened Availability
  import opened IntSeqs

  /**
   * The bound `minAge`/`maxAge` derive: `new Date(today.year - age, today.month, today.day)`.
   * Only a 29 February whose derived year is not a leap year moves, to 1 March.
   */
  function AgeBound(today: Date, age: int): (r: Date)
    requires ValidDate(today)
    ensures ValidDate(r) && r.year == FullYear(today.year - age)
    ensures today.day <= DaysInMonth(today.month, r.year) ==> r.month == today.month && r.day == today.day
    ensures today.day > DaysInMonth(today.month, r.year) ==>
      today.month == 1 && today.day == 29 && !IsLeapYear(r.year) && r.month == 2 && r.day == 1
  {
    MakeDate(today.year - age, today.month, today.day)
  }

  /** Eighteen years before 6 April 2025 is 6 April 2007; one year before 29 February 2024 is 1 March 2023. */
  lemma AgeBoundExamples()
    ensures AgeBound(Date(2025, 3, 6), 18) == Date(2007, 3, 6)
    ensures AgeBound(Date(2024, 1, 29), 1) == Date(2023, 2, 1)
  {
    assert IsLeapYear(2024) && !IsLeapYear(2023);
  }

  /**
   * With minAge 18 on 6 April 2025 the derived maxDate is 6 April 2007, so
   * April 2007 offers days 1 to 6 (no minDate in that month, no past/future cut).
   */
  lemma MinAgeCapsDays(c: Config, today: Date, sel: Date)
    requires today == Date(2025, 3, 6) && c.maxDate == Some(AgeBound(today, 18))
    requires sel.year == 2007 && sel.month == 3
    requires c.minDate.None?
    ensures AvailableDays(c, sel, today) == Range(1, 7)
  {
    AgeBoundExamples();
    AvailableDaysIsWindow(c, sel, today);
    assert DayWindow(c, sel, today) == (1, 6);
  }

  /**
   * The date `setDateFromParts(day, month, year)` stores: the day clamped to
   * the month's length, in the year `new Date` reads.
   */
  function DateFromParts(day: int, month: int, year: int): (r: Date)
    requires 0 <= month < 12 && 1 <= day
    ensures ValidDate(r)
    ensures r.year == FullYear(year) && r.month == month
    ensures !(0 <= year <= 99) ==> r.year == year
    ensures r.day <= day
    ensures r.day == day <==> day <= DaysInMonth(month, r.year)
    ensures r.day < day ==> r.day == DaysInMonth(month, r.year)
  {
    var daysInMonth := GetDaysInMonth(month, year);
    var safeDay := if day <= daysInMonth then day else daysInMonth;
    MakeDate(year, month, safeDay)
  }

  /** Storing a stored date's own parts again changes nothing. */
  lemma DateFromPartsIdempotent(day: int, month: int, year: int)
    requires 0 <= month < 12 && 1 <= day
    ensures var d := DateFromParts(day, month, year); DateFromParts(d.day, d.month, d.year) == d
  {
  }

  /** Day 31 set on April gives 30 April. */
  lemma ClampExample()
    ensures DateFromParts(31, 3, 2025) == Date(2025, 3, 30)
  {
  }

  /** `callback?.(arg)`: the event when the callback is registered, nothing otherwise. */
  function Fired(registered: bool, e: Event): (r: seq<Event>)
    ensures registered <==> r == [e]
    ensures !registered <==> r == []
  {
    if registered then [e] else []
  }

  /** `DropdownDatePickerCore`: the configuration, the callbacks, the selected date, and the callbacks fired so far. */
  class DropdownDatePicker {
    /** The configuration resolved at construction, held here as an immutable value. */
    const config: Config
    const callbacks: Callbacks
    var date: Date
    var events: seq<Event>

    /** The selected date is always a real calendar date. */
    ghost predicate Valid()
      reads this
    {
      ValidDate(date)
    }

    /** Defaults for every absent option; minAge/maxAge replace maxDate/minDate with a bound derived from `today`. */
    constructor (options: Options, today: Date)
      requires ValidDate(today)
      requires options.initialDate.Some? ==> ValidDate(options.initialDate.value)
      ensures Valid()
      ensures date == options.initialDate.GetOr(today)
      ensures events == [] && callbacks == options.callbacks
      ensures config.yearRange == options.yearRange.GetOr((1900, today.year))
      ensures config.dayFormat == options.dayFormat.GetOr(DayNumber)
      ensures config.monthFormat == options.monthFormat.GetOr(MonthLong)
      ensures config.dateOrder == options.dateOrder.GetOr([Day, Month, Year])
      ensures config.allowFuture == options.allowFuture.GetOr(true)
      ensures config.allowPast == options.allowPast.GetOr(true)
      ensures config.sortYears == options.sortYears.GetOr(Asc)
      ensures config.locale == options.locale.GetOr("en")
      ensures config.maxDate ==
        if options.minAge.Some? then Some(AgeBound(today, options.minAge.value)) else options.maxDate
      ensures config.minDate ==
        if options.maxAge.Some? then Some(AgeBound(today, options.maxAge.value)) else options.minDate
    {
      date := options.initialDate.GetOr(today);
      callbacks := options.callbacks;
      var currentYear := today.year;
      var minDate := options.minDate;
      var maxDate := options.maxDate;
      if options.minAge.Some? {
        maxDate := Some(AgeBound(today, options.minAge.value));
      }
      if options.maxAge.Some? {
        minDate := Some(AgeBound(today, options.maxAge.value));
      }
      config := Config(
        options.yearRange.GetOr((1900, currentYear)),
        options.dayFormat.GetOr(DayNumber),
        options.monthFormat.GetOr(MonthLong),
        options.dateOrder.GetOr([Day, Month, Year]),
        minDate,
        maxDate,
        options.allowFuture.GetOr(true),
        options.allowPast.GetOr(true),
        options.sortYears.GetOr(Asc),
        options.locale.GetOr("en"));
      events := [];
    }

    /** `setDateFromParts(day, month, year)`: store the clamped date, then fire onChange with it. */
    method SetDateFromParts(day: int, month: int, year: int)
      requires 0 <= month < 12 && 1 <= day
      modifies this`date, this`events
      ensures Valid()
      ensures date == DateFromParts(day, month, year)
      ensures events == old(events) + Fired(callbacks.onChange, DateChanged(date))
    {
      var daysInMonth := GetDaysInMonth(month, year);
      var safeDay := if day <= daysInMonth then day else daysInMonth;
      date := MakeDate(year, month, safeDay);
      if callbacks.onChange {
        events := events + [DateChanged(date)];
      }
    }

    /** `setDay(day)`: month and year kept; onChange, then onDayChange with the day as given (not as clamped). */
    method SetDay(day: int)
      requires Valid() && 1 <= day
      modifies this`date, this`events
      ensures Valid()
      ensures date == DateFromParts(day, old(date).month, old(date).year)
      ensures date.month == old(date).month && date.year == FullYear(old(date).year)
      ensures events == old(events)
        + Fired(callbacks.onChange, DateChanged(date))
        + Fired(callbacks.onDayChange, DayChanged(day))
    {
      SetDateFromParts(day, date.month, date.year);
      if callbacks.onDayChange {
        events := events + [DayChanged(day)];
      }
    }

    /** `setMonth(month)`: day (clamped) and year kept; onChange, then onMonthChange with the 1-based month. */
    method SetMonth(month: int)
      requires Valid() && 0 <= month < 12
      modifies this`date, this`events
      ensures Valid()
      ensures date == DateFromParts(old(date).day, month, old(date).year)
      ensures date.month == month && date.year == FullYear(old(date).year) && date.day <= old(date).day
      ensures events == old(events)
        + Fired(callbacks.onChange, DateChanged(date))
        + Fired(callbacks.onMonthChange, MonthChanged(month + 1))
    {
      SetDateFromParts(date.day, month, date.year);
      if callbacks.onMonthChange {
        events := events + [MonthChanged(month + 1)];
      }
    }

    /** `setYear(year)`: day (clamped) and month kept; onChange, then onYearChange with the year as given. */
    method SetYear(year: int)
      requires Valid()
      modifies this`date, this`events
      ensures Valid()
      ensures date == DateFromParts(old(date).day, old(date).month, year)
      ensures date.month == old(date).month && date.year == FullYear(year) && date.day <= old(date).day
      ensures events == old(events)
        + Fired(callbacks.onChange, DateChanged(date))
        + Fired(callbacks.onYearChange, YearChanged(year))
    {
      SetDateFromParts(date.day, date.month, year);
      if callbacks.onYearChange {
        events := events + [YearChanged(year)];
      }
    }
  }

  /**
   * From 31 January 2025 with every callback registered, choosing April twice
   * clamps the day to 30 and reports both times: the date first, then month 4.
   */
  method MonthSwitchClampsAndAlwaysFires() returns (p: DropdownDatePicker)
    ensures p.date == Date(2025, 3, 30)
    ensures p.events == [DateChanged(Date(2025, 3, 30)), MonthChanged(4),
                         DateChanged(Date(2025, 3, 30)), MonthChanged(4)]
  {
    var options := Options(Some(Date(2025, 0, 31)), Callbacks(true, true, true, true),
                           None, None, None, None, None, None, None, None, None, None, None, None);
    p := new DropdownDatePicker(options, Date(2025, 3, 6));
    p.SetMonth(3);
    p.SetMonth(3);
  }
}
