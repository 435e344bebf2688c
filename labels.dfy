/**
 * Labels for the dropdown options: decimal rendering, `padStart`, the
 * ordinal-suffix table, the per-field formatters and the labelled lists the
 * host renders.
 */
module Labels {
  import opened Calendar
  import opened PickerTypes
  import opened Availability

  // ------------------------------------------------- decimal rendering

  predicate IsDigit(ch: char) { '0' <= ch <= '9' }

  predicate AllDigits(s: string) { forall i :: 0 <= i < |s| ==> IsDigit(s[i]) }

  function DigitChar(n: int): (ch: char)
    requires 0 <= n < 10
    ensures IsDigit(ch) && ch as int - '0' as int == n
  {
    ('0' as int + n) as char
  }

  /** Decimal digits of `n`, most significant first, without leading zeros. */
  function NatToString(n: nat): (s: string)
    ensures |s| >= 1 && AllDigits(s)
    ensures s[0] == '0' <==> n == 0
  {
    if n < 10 then [DigitChar(n)] else NatToString(n / 10) + [DigitChar(n % 10)]
  }

  /** The value a string of decimal digits denotes. */
  function ParseNat(s: string): nat
    requires AllDigits(s)
  {
    if s == [] then 0 else 10 * ParseNat(s[..|s| - 1]) + (s[|s| - 1] as int - '0' as int)
  }

  /** Reading back the digits of `n` gives `n`. */
  lemma {:induction false} ParseNatToString(n: nat)
    ensures ParseNat(NatToString(n)) == n
  {
    var s := NatToString(n);
    if n >= 10 {
      ParseNatToString(n / 10);
      assert s[..|s| - 1] == NatToString(n / 10);
    }
  }

  /** `${i}`: the decimal rendering JavaScript gives an integer below 10^21 in magnitude, with a leading '-' when negative. */
  function IntToString(i: int): (s: string)
    ensures |s| >= 1
    ensures i >= 0 ==> AllDigits(s) && ParseNat(s) == i
    ensures i < 0 ==> s[0] == '-' && AllDigits(s[1..]) && ParseNat(s[1..]) == -i
    ensures i >= 0 ==> (s[0] == '0' <==> i == 0)
    ensures i < 0 ==> |s| >= 2 && s[1] != '0'
  {
    if i < 0 then
      ParseNatToString(-i);
      var s := "-" + NatToString(-i);
      assert s[1..] == NatToString(-i);
      s
    else
      ParseNatToString(i);
      NatToString(i)
  }

  /** `s.padStart(width, fill)`: `fill` characters prepended until `s` is `width` long. */
  function PadStart(s: string, width: nat, fill: char): (r: string)
    ensures |r| == if |s| >= width then |s| else width
    ensures r[|r| - |s|..] == s
    ensures forall i :: 0 <= i < |r| - |s| ==> r[i] == fill
  {
    if |s| >= width then s else seq(width - |s|, _ => fill) + s
  }

  // --------------------------------------------------- ordinal suffixes

  /** JavaScript's `a % b` for a positive `b`: the remainder takes the sign of `a`. */
  function JsRem(a: int, b: int): (r: int)
    requires b > 0
    ensures exists q :: a == b * q + r
    ensures a >= 0 ==> 0 <= r < b
    ensures a < 0 ==> -b < r <= 0
    ensures a >= 0 ==> r == a % b
  {
    if a >= 0 then
      assert a == b * (a / b) + a % b;
      a % b
    else
      var q := (-a) / b;
      assert -a == b * q + (-a) % b;
      assert a == b * (-q) + -((-a) % b);
      -((-a) % b)
  }

  /** The English suffix as the source chooses it: 4..20 take "th", otherwise the last digit decides. */
  function EnglishSuffix(d: int): (r: string)
    ensures r in {"st", "nd", "rd", "th"}
    ensures 4 <= d <= 20 ==> r == "th"
    ensures d >= 0 && r != "th" ==> d % 10 in {1, 2, 3}
    ensures d < 0 ==> r == "th"
  {
    if d > 3 && d < 21 then "th"
    else match JsRem(d, 10)
      case 1 => "st"
      case 2 => "nd"
      case 3 => "rd"
      case _ => "th"
  }

  /** The usual English rule: last two digits 11..13 take "th", otherwise the last digit decides. */
  function ConventionalSuffix(d: nat): string {
    if 11 <= d % 100 <= 13 then "th"
    else if d % 10 == 1 then "st"
    else if d % 10 == 2 then "nd"
    else if d % 10 == 3 then "rd"
    else "th"
  }

  /** The source's rule agrees with the usual rule on every day number and beyond, up to 110. */
  lemma EnglishSuffixIsConventional(d: int)
    requires 0 <= d <= 110
    ensures EnglishSuffix(d) == ConventionalSuffix(d)
  {
    if d >= 100 {
      assert d % 100 == d - 100 && d % 10 == d - 100 - (d - 100) / 10 * 10;
    } else {
      assert d % 100 == d;
    }
  }

  /** The locales of the ordinal table (`suffixes[locale]` defined), apart from its `other` entry. */
  predicate InOrdinalTable(locale: string) {
    locale in {"en", "fr", "es", "it", "de", "pt", "ja", "zh"}
  }

  /**
   * `getLocalizedOrdinal(day, locale)`. A locale outside the table takes the
   * `other` entry, a number in the locale's own digits, so the source's
   * "no formatter" error cannot arise and is not part of the result type.
   */
  function Ordinal(day: int, locale: string, intl: Intl): (r: string)
    ensures locale == "en" ==> r == IntToString(day) + EnglishSuffix(day)
    ensures locale == "en" && 0 <= day <= 110 ==> r == IntToString(day) + ConventionalSuffix(day)
    ensures locale == "fr" ==> r == IntToString(day) + (if day == 1 then "er" else "e")
    ensures locale in {"es", "it"} ==> r == IntToString(day) + "º"
    ensures locale == "de" ==> r == IntToString(day) + "."
    ensures locale == "pt" ==> r == IntToString(day) + ".º"
    ensures locale == "ja" ==> r == IntToString(day) + "日"
    ensures locale == "zh" ==> r == "第" + IntToString(day) + "日"
    ensures !InOrdinalTable(locale) ==> r == intl.formatNumber(day, locale)
  {
    var n := IntToString(day);
    if locale == "en" then
      (if 0 <= day <= 110 then EnglishSuffixIsConventional(day); n + EnglishSuffix(day)
       else n + EnglishSuffix(day))
    else if locale == "fr" then (if day == 1 then n + "er" else n + "e")
    else if locale == "es" || locale == "it" then n + "º"
    else if locale == "de" then n + "."
    else if locale == "pt" then n + ".º"
    else if locale == "ja" then n + "日"
    else if locale == "zh" then "第" + n + "日"
    else intl.formatNumber(day, locale)
  }

  /** 1st, 2nd, 3rd and 4th in English. */
  lemma EnglishOrdinalSmallExamples(intl: Intl)
    ensures Ordinal(1, "en", intl) == "1st" && Ordinal(2, "en", intl) == "2nd"
    ensures Ordinal(3, "en", intl) == "3rd" && Ordinal(4, "en", intl) == "4th"
  {
    assert IntToString(1) == "1" && IntToString(2) == "2";
    assert IntToString(3) == "3" && IntToString(4) == "4";
  }

  /** 11th, 12th and 13th, but 21st, 22nd, 23rd and 31st in English. */
  lemma EnglishOrdinalTeenExamples(intl: Intl)
    ensures Ordinal(11, "en", intl) == "11th" && Ordinal(12, "en", intl) == "12th"
    ensures Ordinal(13, "en", intl) == "13th" && Ordinal(21, "en", intl) == "21st"
    ensures Ordinal(22, "en", intl) == "22nd" && Ordinal(23, "en", intl) == "23rd"
    ensures Ordinal(31, "en", intl) == "31st"
  {
    DecimalOfTwoDigits(11);
    DecimalOfTwoDigits(12);
    DecimalOfTwoDigits(13);
    DecimalOfTwoDigits(21);
    DecimalOfTwoDigits(22);
    DecimalOfTwoDigits(23);
    DecimalOfTwoDigits(31);
  }

  /** A number 10..99 is written as its tens digit followed by its units digit. */
  lemma DecimalOfTwoDigits(n: int)
    requires 10 <= n < 100
    ensures IntToString(n) == [DigitChar(n / 10), DigitChar(n % 10)]
  {
    assert n / 10 < 10;
    assert NatToString(n / 10) == [DigitChar(n / 10)];
    assert NatToString(n) == NatToString(n / 10) + [DigitChar(n % 10)];
  }

  // ---------------------------------------------------- field formatters

  /** `formatDay(day)` */
  function FormatDay(c: Config, intl: Intl, day: int): (r: string)
    ensures c.dayFormat.DayCustom? ==> r == c.dayFormat.formatDay(day)
    ensures c.dayFormat.DayOrdinal? ==> r == Ordinal(day, c.locale, intl)
    ensures c.dayFormat.DayNumber? ==> r == PadStart(intl.formatNumber(day, c.locale), 2, '0')
  {
    match c.dayFormat
    case DayCustom(f) => f(day)
    case DayOrdinal => Ordinal(day, c.locale, intl)
    case DayNumber => PadStart(intl.formatNumber(day, c.locale), 2, '0')
  }

  /** `formatMonth(month)`: a custom formatter receives the 0-based index, the number format shows month + 1. */
  function FormatMonth(c: Config, intl: Intl, month: int): (r: string)
    ensures c.monthFormat.MonthCustom? ==> r == c.monthFormat.formatMonth(month)
    ensures c.monthFormat.MonthShort? ==> r == intl.monthName(month, c.locale, ShortName)
    ensures c.monthFormat.MonthLong? ==> r == intl.monthName(month, c.locale, LongName)
    ensures c.monthFormat.MonthNumber? ==> r == PadStart(intl.formatNumber(month + 1, c.locale), 2, '0')
  {
    match c.monthFormat
    case MonthCustom(f) => f(month)
    case MonthShort => intl.monthName(month, c.locale, ShortName)
    case MonthLong => intl.monthName(month, c.locale, LongName)
    case MonthNumber => PadStart(intl.formatNumber(month + 1, c.locale), 2, '0')
  }

  /** `formatYear(year)`: the locale's number, unpadded. */
  function FormatYear(c: Config, intl: Intl, year: int): (r: string)
    ensures r == intl.formatNumber(year, c.locale)
  {
    intl.formatNumber(year, c.locale)
  }

  /** With the number format and a service that writes 7 as "7" in English, day 7 reads "07"; ordinal days 21 and 13 read "21st" and "13th". */
  lemma DayLabelExamples(c: Config, intl: Intl)
    requires c.locale == "en"
    requires intl.formatNumber(7, "en") == "7"
    ensures c.dayFormat.DayNumber? ==> FormatDay(c, intl, 7) == "07"
    ensures c.dayFormat.DayOrdinal? ==> FormatDay(c, intl, 21) == "21st" && FormatDay(c, intl, 13) == "13th"
  {
    EnglishOrdinalTeenExamples(intl);
    var p := PadStart("7", 2, '0');
    assert p[1..] == "7" && p[0] == '0';
  }

  // ------------------------------------------------------ labelled lists

  /** `values.map(v => ({ value: v, label: format(v) }))` */
  function Labelled(values: seq<int>, format: int -> string): (r: seq<LabelledValue>)
    ensures |r| == |values|
    ensures forall i :: 0 <= i < |r| ==> r[i].value == values[i] && r[i].text == format(values[i])
  {
    seq(|values|, i requires 0 <= i < |values| => LabelledValue(format(values[i]), values[i]))
  }

  /** The values of a labelled list, in order. */
  function Values(options: seq<LabelledValue>): (r: seq<int>)
    ensures |r| == |options|
    ensures forall i :: 0 <= i < |r| ==> r[i] == options[i].value
  {
    seq(|options|, i requires 0 <= i < |options| => options[i].value)
  }

  /** `getFormattedDays()` */
  function FormattedDays(c: Config, sel: Date, today: Date, intl: Intl): (r: seq<LabelledValue>)
    requires 0 <= sel.month < 12
    ensures Values(r) == AvailableDays(c, sel, today)
    ensures forall i :: 0 <= i < |r| ==> r[i].text == FormatDay(c, intl, r[i].value)
  {
    Labelled(AvailableDays(c, sel, today), d => FormatDay(c, intl, d))
  }

  /** `getFormattedMonths()` */
  function FormattedMonths(c: Config, sel: Date, today: Date, intl: Intl): (r: seq<LabelledValue>)
    ensures Values(r) == AvailableMonths(c, sel, today)
    ensures forall i :: 0 <= i < |r| ==> r[i].text == FormatMonth(c, intl, r[i].value)
  {
    Labelled(AvailableMonths(c, sel, today), m => FormatMonth(c, intl, m))
  }

  /** `getFormattedYears()` */
  function FormattedYears(c: Config, today: Date, intl: Intl): (r: seq<LabelledValue>)
    ensures Values(r) == AvailableYears(c, today)
    ensures forall i :: 0 <= i < |r| ==> r[i].text == FormatYear(c, intl, r[i].value)
  {
    Labelled(AvailableYears(c, today), y => FormatYear(c, intl, y))
  }

  /** The available values of one field. */
  function AvailableFor(c: Config, sel: Date, today: Date, field: Field): seq<int>
    requires 0 <= sel.month < 12
  {
    match field
    case Day => AvailableDays(c, sel, today)
    case Month => AvailableMonths(c, sel, today)
    case Year => AvailableYears(c, today)
  }

  /** `getFormattedDateParts()`: one labelled dropdown per entry of dateOrder, in that order. */
  function FormattedDateParts(c: Config, sel: Date, today: Date, intl: Intl): (r: seq<LabelPart>)
    requires 0 <= sel.month < 12
    ensures |r| == |c.dateOrder| == 3
    ensures forall i :: 0 <= i < |r| ==>
      && r[i].kind == c.dateOrder[i]
      && Values(r[i].options) == AvailableFor(c, sel, today, c.dateOrder[i])
      && (c.dateOrder[i] == Day ==> r[i].options == FormattedDays(c, sel, today, intl))
      && (c.dateOrder[i] == Month ==> r[i].options == FormattedMonths(c, sel, today, intl))
      && (c.dateOrder[i] == Year ==> r[i].options == FormattedYears(c, today, intl))
  {
    seq(|c.dateOrder|, i requires 0 <= i < |c.dateOrder| =>
      var part := c.dateOrder[i];
      LabelPart(part,
        if part == Day then FormattedDays(c, sel, today, intl)
        else if part == Month then FormattedMonths(c, sel, today, intl)
        else FormattedYears(c, today, intl)))
  }
}
