/**
 * The shapes the date picker is configured and queried with: format modes,
 * field tags, labelled options, the construction options and the resolved
 * configuration, and the change notifications it emits.
 */
module PickerTypes {
  import opened Calendar

  datatype Option<T> = None | Some(value: T) {
    /** `x ?? default` */
    function GetOr(default: T): T {
      match this
      case Some(v) => v
      case None => default
    }
  }

  /** One of the three dropdowns: "day", "month" or "year". */
  datatype Field = Day | Month | Year

  /** `DateOrderType`: exactly three field tags, in display order. */
  type DateOrder = s: seq<Field> | |s| == 3 witness [Day, Month, Year]

  /** "asc" or "desc". */
  datatype SortYears = Asc | Desc

  /** "ordinal", "number", or a caller-supplied function of the day number. */
  datatype DayFormat = DayOrdinal | DayNumber | DayCustom(formatDay: int -> string)

  /** "short", "long", "number", or a caller-supplied function of the 0-based month index. */
  datatype MonthFormat = MonthShort | MonthLong | MonthNumber | MonthCustom(formatMonth: int -> string)

  /** Month-name width requested from the locale service. */
  datatype MonthNameStyle = ShortName | LongName

  /**
   * The locale service the labels are built from: a number rendered in the
   * locale's own numbering system, and a month name for a 0-based month index.
   */
  datatype Intl = Intl(
    formatNumber: (int, string) -> string,
    monthName: (int, string, MonthNameStyle) -> string)

  /** `{ label, value }`: one option of a dropdown (`label` is a reserved word here, hence `text`). */
  datatype LabelledValue = LabelledValue(text: string, value: int)

  /** `LabelPartType`: one dropdown, tagged with its field. */
  datatype LabelPart = LabelPart(kind: Field, options: seq<LabelledValue>)

  /** Which of the four change callbacks the host registered. */
  datatype Callbacks = Callbacks(onChange: bool, onDayChange: bool, onMonthChange: bool, onYearChange: bool)

  /** One invocation of a change callback, with its argument. */
  datatype Event =
    | DateChanged(date: Date)
    | DayChanged(day: int)
    | MonthChanged(month: int)
    | YearChanged(year: int)

  /** `CoreOptions`: every option may be absent. An `initialDate` that is not a valid date is `None`. */
  datatype Options = Options(
    initialDate: Option<Date>,
    callbacks: Callbacks,
    yearRange: Option<(int, int)>,
    dayFormat: Option<DayFormat>,
    monthFormat: Option<MonthFormat>,
    dateOrder: Option<DateOrder>,
    minDate: Option<Date>,
    maxDate: Option<Date>,
    allowFuture: Option<bool>,
    allowPast: Option<bool>,
    sortYears: Option<SortYears>,
    minAge: Option<int>,
    maxAge: Option<int>,
    locale: Option<string>)

  /** The configuration fixed at construction. */
  datatype Config = Config(
    yearRange: (int, int),
    dayFormat: DayFormat,
    monthFormat: MonthFormat,
    dateOrder: DateOrder,
    minDate: Option<Date>,
    maxDate: Option<Date>,
    allowFuture: bool,
    allowPast: bool,
    sortYears: SortYears,
    locale: string)
}
