# Dropdown date picker engine, modelled in Dafny

This project models `DropdownDatePickerCore`, the engine behind a three-field
(day / month / year) dropdown date picker. The engine holds one selected date
(full year, 0-based month, 1-based day) and a configuration set at
construction. In the model the configuration then stays fixed; the source
shares some of it with the caller (see "## Left out"). It contains:

- a year range;
- optional min/max dates, which `minAge`/`maxAge` replace with a bound
  derived from "today";
- the `allowPast`/`allowFuture` flags;
- the year sort order and the field order;
- the day and month label formats and a locale.

It answers three kinds of question:

- which days, months and years are currently selectable;
- how each option is labelled;
- what the selected date becomes when a field is set. The day is clamped to
  the month's length, and the registered change callbacks fire in a fixed
  order.

## Layout

- `calendar.dfy` (module `Calendar`) has the proleptic Gregorian month
  lengths. It also models the JavaScript `Date` constructor for the
  arguments the engine gives it: a year argument 0..99 is read as 1900 + year,
  and a day past the month's end rolls into the next month.
- `intseqs.dfy` (module `IntSeqs`) has the integer ranges, `filter` and
  `reverse` that the queries are built from. It also proves that a strictly
  ascending sequence is fixed by its set of elements.
- `types.dfy` (module `PickerTypes`) holds the option, configuration, format
  mode, field tag, labelled-option and callback-event shapes.
- `availability.dfy` (module `Availability`) has `getAvailableDays`,
  `getAvailableMonths` and `getAvailableYears`. These are pure functions of the
  configuration, the selected date and "today". Each is characterised by a
  membership predicate and strict ordering, and is proved to be one contiguous
  run of values.
- `labels.dfy` (module `Labels`) covers decimal rendering, `padStart`, the
  ordinal-suffix table, the day/month/year formatters, the labelled lists and
  `getFormattedDateParts`.
- `picker.dfy` (module `Picker`) has the `DropdownDatePicker` class. It holds
  the constructor with its defaults and age-derived bounds, and the four
  setters, which update the selected date in place.

Two behaviours of the code that the model keeps:

- `setDay` passes the argument it was given to `onDayChange`, not the
  clamped day (DropdownDatePickerCore.ts:241).
- An age bound is `new Date(today.year - age, today.month, today.day)`
  (DropdownDatePickerCore.ts:53-57). When today is 29 February and the derived
  year is not a leap year, that rolls to 1 March.

"Today" is a parameter, given to the constructor and to every query, because
the source reads the clock on each call. Callbacks are modelled as an event
log: `events` gets one entry per callback invocation, and only registered
callbacks produce an entry. The locale service (numbers in the locale's own
numbering system, month names) is the `Intl` parameter. Custom day and month
formatters are function values.

## Model

| member | source | states |
|---|---|---|
| Calendar.DaysInMonth | packages/core/src/DropdownDatePickerCore.ts:101-103 | Defined as the gap between the first of this month and the first of the next. Proved to be 31 for months 0,2,4,6,7,9,11, 30 for 3,5,8,10, and for February 29 exactly in leap years (divisible by 4, not by 100 unless by 400). |
| Calendar.GetDaysInMonth | packages/core/src/DropdownDatePickerCore.ts:101-103 | `getDaysInMonth(month, year)` equals the calendar month length for years outside 0..99. For a year argument 0..99 it gives the length of that month in 1900 + year, as `new Date` reads it. |
| Calendar.FullYear | packages/core/src/DropdownDatePickerCore.ts:235 | The year `new Date(y, …)` uses: never in 0..99, and equal to y outside 0..99. |
| Calendar.MakeDate | packages/core/src/DropdownDatePickerCore.ts:53-57 | `new Date(y, m, d)` for m in 0..11 and d in 1..31 is a valid date in year FullYear(y). It lands on the same day of the year as "first of month m plus d - 1 days". It keeps month m exactly when d fits in that month. |
| IntSeqs.Range | packages/core/src/DropdownDatePickerCore.ts:209-212 | `Array.from({length: hi - lo}, …)` is empty when the length is not positive. Otherwise element i is lo + i, so the range holds exactly lo..hi-1 in strictly ascending order. |
| IntSeqs.Filter | packages/core/src/DropdownDatePickerCore.ts:140-142 | `filter` keeps exactly the elements that satisfy the predicate and never grows the sequence. |
| IntSeqs.FilterAscending | packages/core/src/DropdownDatePickerCore.ts:140-153 | Filtering a strictly ascending sequence leaves it strictly ascending. |
| IntSeqs.Reversed | packages/core/src/DropdownDatePickerCore.ts:225-227 | `reverse()` keeps the length and puts element i at position length - 1 - i. |
| IntSeqs.ReversedFacts | packages/core/src/DropdownDatePickerCore.ts:225-227 | Reversing keeps the same elements and turns a strictly ascending sequence into a strictly descending one. |
| Availability.TodayDayFilterIsPermitted | packages/core/src/DropdownDatePickerCore.ts:119-130 | The four-case day filter for today's month equals the two-sided rule "before today needs allowPast, after today needs allowFuture". With both flags off, only today's day passes. |
| Availability.FilterIf | packages/core/src/DropdownDatePickerCore.ts:115-153 | `if (cond) xs = xs.filter(p)`: the result holds exactly the elements of xs that satisfy p, or every element when cond is false. A strictly ascending input stays strictly ascending. |
| Availability.AvailableDays | packages/core/src/DropdownDatePickerCore.ts:105-156 | The result is strictly ascending. A day is in it exactly when all of these hold: it is in 1..daysInMonth; in today's year-month it obeys the past/future rule against today's day; in minDate's year-month it is ≥ minDate's day; in maxDate's year-month it is ≤ maxDate's day. |
| Availability.AvailableDaysIsWindow | packages/core/src/DropdownDatePickerCore.ts:105-156 | The available days are exactly the consecutive run from the largest applicable lower bound to the smallest applicable upper bound. The run is empty when the bounds cross. |
| Availability.OnlyTodayWhenNeitherPastNorFuture | packages/core/src/DropdownDatePickerCore.ts:115-131 | With allowPast and allowFuture both false, today's month selected and no min/max date, the available days are exactly [today's day]. |
| Availability.MonthsWithinBounds | packages/core/src/DropdownDatePickerCore.ts:158-177 | The result is strictly ascending. A month index is in it exactly when it is in 0..11, is ≥ minDate's month in minDate's year, and is ≤ maxDate's month in maxDate's year. |
| Availability.AvailableMonths | packages/core/src/DropdownDatePickerCore.ts:158-190 | Strictly ascending months of 0..11 within the min/max bounds. The past/future rule against today's month applies only when the selected year is today's year. |
| Availability.AvailableMonthsIsWindow | packages/core/src/DropdownDatePickerCore.ts:158-194 | The available months are exactly one consecutive run of month indices between the applicable bounds. |
| Availability.BoundedYearRange | packages/core/src/DropdownDatePickerCore.ts:197-207 | The start and end after the min/max narrowing bracket exactly the years that lie in the year range and between minDate's year and maxDate's year. |
| Availability.AscendingYears | packages/core/src/DropdownDatePickerCore.ts:196-223 | Before any reversal, the years are strictly ascending. A year is in them exactly when it is in the year range, is ≥ minDate's year, is ≤ maxDate's year, and obeys the past/future rule against today's year. |
| Availability.AvailableYears | packages/core/src/DropdownDatePickerCore.ts:196-230 | Holds the same years as above. They are strictly ascending for "asc" and strictly descending for "desc". |
| Availability.AscendingYearsIsWindow | packages/core/src/DropdownDatePickerCore.ts:196-223 | With "asc", the result is exactly the integers from max(start, minDate.year, today's year if !allowPast) to min(end, maxDate.year, today's year if !allowFuture). It is empty when these cross. |
| Availability.DescendingYearsReverseAscending | packages/core/src/DropdownDatePickerCore.ts:225-227 | The "desc" list is exactly the "asc" list reversed. |
| Availability.DescendingYearRangeExample | packages/core/src/DropdownDatePickerCore.ts:196-230 | Range [2000, 2005] with "desc" and no other constraint gives [2005, 2004, 2003, 2002, 2001, 2000]. |
| Labels.NatToString | packages/core/src/DropdownDatePickerCore.ts:257 | A non-empty string of decimal digits with no leading zero (except "0"). |
| Labels.ParseNatToString | packages/core/src/DropdownDatePickerCore.ts:257-266 | Reading back the digits NatToString writes gives the number: the rendering round-trips. |
| Labels.IntToString | packages/core/src/DropdownDatePickerCore.ts:257-275 | For \|d\| below 10^21, `${d}` is the canonical decimal digits of \|d\|: they parse back to \|d\| and have no leading zero except in "0". A negative d gets a leading '-'. This fixes the string uniquely. |
| Labels.PadStart | packages/core/src/DropdownDatePickerCore.ts:301-303 | `padStart(2, "0")` returns a string of length max(\|s\|, 2). The string ends with s and every character before s is the fill character. |
| Labels.JsRem | packages/core/src/DropdownDatePickerCore.ts:258 | JavaScript's `a % b` for b > 0: a = b·q + r for some integer q, with 0 ≤ r < b when a ≥ 0 and -b < r ≤ 0 when a < 0. The remainder carries the dividend's sign, which fixes r uniquely. For a ≥ 0 it agrees with Dafny's `%`. |
| Labels.EnglishSuffix | packages/core/src/DropdownDatePickerCore.ts:256-268 | The `en` suffix is always one of st/nd/rd/th. 4..20 take "th". For d ≥ 0 a suffix other than "th" comes only from a last digit of 1, 2 or 3. A negative d always takes "th", because JavaScript's `%` gives a non-positive remainder. |
| Labels.EnglishSuffixIsConventional | packages/core/src/DropdownDatePickerCore.ts:256-268 | For 0..110, which covers every day number, the source's "4..20 then last digit" rule equals the usual rule: last two digits 11..13 take "th", otherwise 1/2/3 take st/nd/rd and anything else takes th. |
| Labels.Ordinal | packages/core/src/DropdownDatePickerCore.ts:254-284 | Gives the suffix table entry per locale (en, fr, es, it, de, pt, ja, zh). A locale outside the table gets the locale service's number, so the "no formatter" error cannot arise. |
| Labels.EnglishOrdinalSmallExamples | packages/core/src/DropdownDatePickerCore.ts:256-268 | 1st, 2nd, 3rd, 4th. |
| Labels.EnglishOrdinalTeenExamples | packages/core/src/DropdownDatePickerCore.ts:256-268 | 11th, 12th and 13th (not 11st/12nd/13rd), and 21st, 22nd, 23rd, 31st. |
| Labels.FormatDay | packages/core/src/DropdownDatePickerCore.ts:297-304 | A custom function is applied to the day. "ordinal" gives the locale's ordinal. "number" gives the locale's number, left-padded with '0' to width 2. |
| Labels.FormatMonth | packages/core/src/DropdownDatePickerCore.ts:306-319 | A custom function receives the 0-based index. "short"/"long" ask the locale service for the month name. "number" gives the 1-based month, padded to width 2. |
| Labels.FormatYear | packages/core/src/DropdownDatePickerCore.ts:321-323 | The locale's number for the year, unpadded. |
| Labels.DayLabelExamples | packages/core/src/DropdownDatePickerCore.ts:297-304 | In English with the number format, day 7 reads "07" (given a service that writes 7 as "7"). With the ordinal format, 21 reads "21st" and 13 reads "13th". |
| Labels.Labelled | packages/core/src/DropdownDatePickerCore.ts:326-343 | `.map(v => ({ value: v, label: format(v) }))` keeps the length. Option i has value values[i] and the label format(values[i]). |
| Labels.FormattedDays | packages/core/src/DropdownDatePickerCore.ts:325-330 | The option values are exactly the available days, in the same order. Each label is that day's formatted text. |
| Labels.FormattedMonths | packages/core/src/DropdownDatePickerCore.ts:332-337 | The option values are exactly the available months, in order, each labelled by FormatMonth. |
| Labels.FormattedYears | packages/core/src/DropdownDatePickerCore.ts:339-344 | The option values are exactly the available years, in order, each labelled by FormatYear. |
| Labels.FormattedDateParts | packages/core/src/DropdownDatePickerCore.ts:362-372 | Exactly three parts, one per entry of dateOrder, which is a three-element tuple. Part i is tagged with dateOrder[i]. Its values equal that field's available values in the same order, and its options are exactly the formatted day, month or year list. |
| Picker.AgeBound | packages/core/src/DropdownDatePickerCore.ts:52-66 | The age-derived bound is a valid date in year FullYear(today.year - age) with today's month and day. The one exception is 29 February when that year is not a leap year, which becomes 1 March. |
| Picker.AgeBoundExamples | packages/core/src/DropdownDatePickerCore.ts:52-58 | minAge 18 on 2025-04-06 gives 2007-04-06. One year before 2024-02-29 gives 2023-03-01. |
| Picker.MinAgeCapsDays | packages/core/src/DropdownDatePickerCore.ts:52-58 | With minAge 18 on 2025-04-06, selecting April 2007 offers exactly days 1..6. |
| Picker.DateFromParts | packages/core/src/DropdownDatePickerCore.ts:232-235 | The stored date is valid, with month m and year FullYear(y), which is y outside 0..99. Its day is the requested day if that fits in the month. Otherwise it is the month's last day, so it never exceeds the month's length. |
| Picker.DateFromPartsIdempotent | packages/core/src/DropdownDatePickerCore.ts:232-235 | Re-storing a stored date's own parts gives the same date: the clamp is idempotent. |
| Picker.ClampExample | packages/core/src/DropdownDatePickerCore.ts:233-235 | Day 31 set on April 2025 gives 30 April 2025. |
| Picker.Fired | packages/core/src/DropdownDatePickerCore.ts:236 | `callback?.(x)` adds exactly one event when the callback is registered and none otherwise. |
| Picker.DropdownDatePicker.constructor | packages/core/src/DropdownDatePickerCore.ts:28-67 | Sets the defaults: range [1900, today's year], day "number", month "long", order day/month/year, both flags true, "asc", "en". The initial date or, if absent or invalid, today. minAge replaces maxDate and maxAge replaces minDate with AgeBound. No events yet. |
| Picker.DropdownDatePicker.SetDateFromParts | packages/core/src/DropdownDatePickerCore.ts:232-237 | The new date is DateFromParts(day, month, year), so it stays valid. onChange fires (when registered) with exactly that date. |
| Picker.DropdownDatePicker.SetDay | packages/core/src/DropdownDatePickerCore.ts:239-242 | Month kept; year kept (as FullYear). Events: onChange with the new date, then onDayChange with the raw day argument. It fires even when the value is unchanged. |
| Picker.DropdownDatePicker.SetMonth | packages/core/src/DropdownDatePickerCore.ts:244-247 | Year kept. The day is kept or lowered to the month's length. Events: onChange with the new date, then onMonthChange with month + 1. |
| Picker.DropdownDatePicker.SetYear | packages/core/src/DropdownDatePickerCore.ts:249-252 | Month kept. The day is kept or lowered to the month's length. Events: onChange with the new date, then onYearChange with the year argument. |
| Picker.MonthSwitchClampsAndAlwaysFires | packages/core/src/DropdownDatePickerCore.ts:244-247 | From 2025-01-31 with all callbacks registered, setMonth(3) twice leaves 2025-04-30. The log is [date 2025-04-30, month 4] twice over: the clamp happens and there is no no-op guard. |

## Left out

- `getLocalizedNumber` and `getNumberingSystemForLocale` are calls into the
  host's internationalisation library. They become the `formatNumber`
  function of the `Intl` parameter, and their output, such as digit grouping
  or the locale's digits, is not modelled.
- The month-name branches of `formatMonth` (`toLocaleString` with
  `month: "short"`/`"long"`) are the same kind of call. They become
  `Intl.monthName`.
- `formatNumber` and `monthName` are total in the model. In the source,
  `new Intl.NumberFormat(locale)` and `toLocaleString(locale, …)` throw a
  RangeError for a locale tag the library rejects, such as `"en_US"`. Then
  `formatYear`, the fallback ordinal, `getFormattedYears` and
  `getFormattedDateParts` throw, and the model has no such error path.
- PadStart counts characters as Unicode scalar values, while JavaScript's
  `padStart` counts UTF-16 code units. A one-digit number in an astral-plane
  numbering system is padded by the model but not by the source.
- The ambient clock (`new Date()` in the constructor and in
  `getCurrentDate`/`getCurrentDay`/`getCurrentMonth`/`getCurrentYear`) is not
  modelled. Queries and the constructor take "today" as a parameter instead.
- Setters are not modelled for a month outside 0..11 or a day below 1.
  JavaScript `Date` rolls such values into neighbouring months or years, so
  `SetDateFromParts`, `SetDay` and `SetMonth` require 0 ≤ month ≤ 11 and
  day ≥ 1. Non-integer numbers are not modelled: every value is an integer.
- SetYear, SetDateFromParts and AgeBound: years outside the range a
  JavaScript `Date` can hold (about -271821..275760) are not modelled. The
  model stores such a year as an ordinary valid date. In the source,
  `getDaysInMonth` then gives NaN and the stored date becomes an Invalid Date,
  which `onChange` receives. After that `getAvailableDays` is empty.
  `setDay`, `setMonth` and `setYear` never recover, because they read NaN from
  the stored date. `setDateFromParts` with valid parts reads only its
  arguments, so it does store a valid date again.
- Aliasing of the selected date is not modelled. The source stores the
  caller's `initialDate` object itself, passes its own `Date` to `onChange`
  and returns it from `getDate`. Any holder of that object can change the
  selected date in place, with no clamp and no callbacks. In the model the
  date is a value that only the setters change.
- Aliasing of the configuration is not modelled. The source keeps the caller's
  own `yearRange` array, `dateOrder` array and `minDate`/`maxDate` Date
  objects by reference. A caller who mutates them after construction changes
  what `getAvailableDays`, `getAvailableMonths`, `getAvailableYears` and
  `getFormattedDateParts` return. `dateOrder` is also a public field that
  anyone can reassign. In the model `config` is an immutable value taken at
  construction.
- AvailableYears, AscendingYears and IntToString: numbers are modelled as
  unbounded integers, while JavaScript numbers are IEEE doubles. Three effects
  of this are not captured, and none of them touches day values, which are
  1..31:
  - When the narrowed year range holds 2^32 or more years, `Array.from`
    throws a RangeError; the model returns the whole range.
  - Beyond 2^53, `start + i` rounds, so the source can list the same year
    twice, which the strict ordering of the model rules out.
  - From 10^21 upwards `${d}` writes exponent form such as "1e+21"; the
    model writes every digit.
- An invalid `initialDate` (NaN time) is `None` in `Options`. Min/max dates are
  plain year/month/day triples, so NaN min/max dates are not modelled.
- Re-entrant callbacks are not modelled: the log records each invocation, and
  a callback cannot call back into the engine.
- Lookups in the suffix table by prototype keys such as "constructor" are not
  modelled. The table is treated as a plain dictionary.
- `getDate`, `getDay`, `getMonth` and `getYear` are reads of the `date`
  field. `isSameYearMonth` is never called.
- `years.reverse()` reverses a freshly built local array, so it is modelled as
  the value-level `Reversed`.
- The React component and the demo page are UI wiring outside the engine, and
  `types.ts` only supplies the datatype shapes.
