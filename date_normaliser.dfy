/**
 * The date normaliser `formatar_data_xml`: an empty cell stays empty, a
 * cell the date parser rejects becomes empty, and any other cell is
 * rewritten as `dd/mm/yyyy` (strftime's `%d/%m/%Y`).
 *
 * The parser itself (pandas' format-guessing `to_datetime`) is not modelled:
 * it is a parameter `parse` that either yields a calendar date or rejects
 * the text (`None`, standing for the ValueError/TypeError that
 * `formatar_data_xml` catches).
 */
module DateNormaliser {
  import opened Wrappers

  type Day = d: int | 1 <= d <= 31 witness 1
  type Month = m: int | 1 <= m <= 12 witness 1
  /** Four-digit years; pandas timestamps lie within 1677-2262. */
  type Year = y: int | 1000 <= y <= 9999 witness 1000

  datatype Date = Date(day: Day, month: Month, year: Year)

  predicate IsDigit(c: char) { '0' <= c <= '9' }

  function DigitChar(n: nat): (c: char)
    requires n < 10
    ensures IsDigit(c) && DigitValue(c) == n
  {
    ('0' as int + n) as char
  }

  function DigitValue(c: char): nat
    requires IsDigit(c)
  {
    c as int - '0' as int
  }

  /** strftime's zero-padded two-digit field (`%d`, `%m`). */
  function Pad2(n: nat): (s: string)
    requires n < 100
    ensures |s| == 2 && IsDigit(s[0]) && IsDigit(s[1])
    ensures 10 * DigitValue(s[0]) + DigitValue(s[1]) == n
  {
    [DigitChar(n / 10), DigitChar(n % 10)]
  }

  /** strftime's `%Y` for a four-digit year. */
  function Pad4(n: nat): (s: string)
    requires 1000 <= n < 10000
    ensures |s| == 4 && forall i :: 0 <= i < 4 ==> IsDigit(s[i])
    ensures 1000 * DigitValue(s[0]) + 100 * DigitValue(s[1]) + 10 * DigitValue(s[2]) + DigitValue(s[3]) == n
  {
    var hi, lo := n / 100, n % 100;
    assert hi < 100;
    Pad2(hi) + Pad2(lo)
  }

  /** A string of the shape `dd/mm/yyyy`: ten characters, digits except at 2 and 5. */
  predicate IsDdMmYyyy(s: string)
  {
    |s| == 10 && s[2] == '/' && s[5] == '/' &&
    forall i :: 0 <= i < 10 && i != 2 && i != 5 ==> IsDigit(s[i])
  }

  /** The date written as `%d/%m/%Y`. */
  function FormatDate(d: Date): (s: string)
    ensures IsDdMmYyyy(s)
  {
    Pad2(d.day) + "/" + Pad2(d.month) + "/" + Pad4(d.year)
  }

  /**
   * Reads a `dd/mm/yyyy` string day first: the inverse of FormatDate,
   * independent of the pandas parser.
   */
  function ParseDdMmYyyy(s: string): Option<Date>
  {
    if !IsDdMmYyyy(s) then None
    else
      var day := 10 * DigitValue(s[0]) + DigitValue(s[1]);
      var month := 10 * DigitValue(s[3]) + DigitValue(s[4]);
      var year := 1000 * DigitValue(s[6]) + 100 * DigitValue(s[7]) + 10 * DigitValue(s[8]) + DigitValue(s[9]);
      if 1 <= day <= 31 && 1 <= month <= 12 && 1000 <= year then Some(Date(day, month, year))
      else None
  }

  lemma ParseFormatted(d: Date)
    ensures ParseDdMmYyyy(FormatDate(d)) == Some(d)
  {
  }

  /** Two single digits are recovered from their two-digit value. */
  lemma TwoDigits(a: nat, b: nat)
    requires a < 10 && b < 10
    ensures (10 * a + b) / 10 == a && (10 * a + b) % 10 == b
  {
  }

  lemma FormatParsed(s: string, d: Date)
    requires ParseDdMmYyyy(s) == Some(d)
    ensures FormatDate(d) == s
  {
    var t := FormatDate(d);
    TwoDigits(DigitValue(s[0]), DigitValue(s[1]));
    TwoDigits(DigitValue(s[3]), DigitValue(s[4]));
    TwoDigits(DigitValue(s[6]), DigitValue(s[7]));
    TwoDigits(DigitValue(s[8]), DigitValue(s[9]));
    var hi := 10 * DigitValue(s[6]) + DigitValue(s[7]);
    var lo := 10 * DigitValue(s[8]) + DigitValue(s[9]);
    assert d.year == 100 * hi + lo;
    assert d.year / 100 == hi && d.year % 100 == lo;
    forall i | 0 <= i < 10
      ensures t[i] == s[i]
    {
    }
  }

  /**
   * `formatar_data_xml`: empty text and rejected text give "", anything
   * else the day-first rendering of the parsed date.
   */
  function Normalise(parse: string -> Option<Date>, raw: string): (r: string)
    ensures r == "" <==> raw == "" || parse(raw).None?
    ensures r != "" ==> IsDdMmYyyy(r) && ParseDdMmYyyy(r) == parse(raw)
  {
    if raw == "" then ""
    else match parse(raw)
      case None => ""
      case Some(d) => ParseFormatted(d); FormatDate(d)
  }

  /**
   * The parser re-reads what it returns: whenever it accepts some text as a
   * date, it accepts that date's `dd/mm/yyyy` rendering as the same date.
   */
  ghost predicate RereadsItsDates(parse: string -> Option<Date>)
  {
    forall s :: parse(s).Some? ==> parse(FormatDate(parse(s).value)) == parse(s)
  }

  predicate IsLeapYear(y: int)
  {
    y % 4 == 0 && (y % 100 != 0 || y % 400 == 0)
  }

  /** The number of days in a month of the Gregorian calendar. */
  function DaysInMonth(m: Month, y: Year): (n: int)
    ensures 28 <= n <= 31
  {
    if m == 2 then (if IsLeapYear(y) then 29 else 28)
    else if m == 4 || m == 6 || m == 9 || m == 11 then 30
    else 31
  }

  predicate IsCalendarDate(d: Date)
  {
    d.day <= DaysInMonth(d.month, d.year)
  }

  /** A day-first reader of `dd/mm/yyyy` that also rejects dates off the calendar. */
  function CalendarDayFirst(s: string): (r: Option<Date>)
    ensures r.Some? ==> IsCalendarDate(r.value) && ParseDdMmYyyy(s) == r
  {
    match ParseDdMmYyyy(s)
    case Some(d) => if IsCalendarDate(d) then Some(d) else None
    case None => None
  }

  lemma CalendarReaderRejectsOffCalendar()
    ensures CalendarDayFirst("31/02/2024") == None
    ensures CalendarDayFirst("29/02/2024") == Some(Date(29, 2, 2024))
    ensures CalendarDayFirst("29/02/2023") == None
  {
    assert ParseDdMmYyyy("31/02/2024") == Some(Date(31, 2, 2024));
    assert ParseDdMmYyyy("29/02/2024") == Some(Date(29, 2, 2024));
    assert ParseDdMmYyyy("29/02/2023") == Some(Date(29, 2, 2023));
  }

  /**
   * Both the plain day-first reader and the calendar-checking one re-read
   * the dates they return.
   */
  lemma DayFirstReaderQualifies()
    ensures RereadsItsDates(ParseDdMmYyyy)
    ensures RereadsItsDates(CalendarDayFirst)
  {
    forall s | ParseDdMmYyyy(s).Some?
      ensures ParseDdMmYyyy(FormatDate(ParseDdMmYyyy(s).value)) == ParseDdMmYyyy(s)
    {
      ParseFormatted(ParseDdMmYyyy(s).value);
    }
    forall s | CalendarDayFirst(s).Some?
      ensures CalendarDayFirst(FormatDate(CalendarDayFirst(s).value)) == CalendarDayFirst(s)
    {
      ParseFormatted(CalendarDayFirst(s).value);
    }
  }

  /**
   * Normalising an already normalised value changes nothing, provided the
   * parser re-reads the dates it returns.
   */
  lemma NormaliseIdempotent(parse: string -> Option<Date>, raw: string)
    requires RereadsItsDates(parse)
    ensures Normalise(parse, Normalise(parse, raw)) == Normalise(parse, raw)
  {
  }

  /**
   * A parser that reads ambiguous slash dates month first (pandas' default)
   * swaps day and month when it re-reads a normalised value, so normalising
   * twice is not normalising once.
   */
  lemma MonthFirstNotIdempotent(parse: string -> Option<Date>)
    requires parse("05/03/2024") == Some(Date(3, 5, 2024))
    requires parse("03/05/2024") == Some(Date(5, 3, 2024))
    ensures Normalise(parse, "05/03/2024") == "03/05/2024"
    ensures Normalise(parse, Normalise(parse, "05/03/2024")) != Normalise(parse, "05/03/2024")
  {
    assert FormatDate(Date(3, 5, 2024)) == "03/05/2024";
    assert FormatDate(Date(5, 3, 2024)) == "05/03/2024";
  }
}
