/** Calendar days in the proleptic Gregorian calendar, without time of day or
    time zone, and the `YYYY-MM-DD` form (the extended complete calendar-date
    representation of section 4.1.2.2 of ISO 8601:2004) in which they travel. */
module Dates {
  import opened Outcomes
  import opened Text

  datatype Date = Date(year: int, month: int, day: int)

  /** A (year, month) pair: the key of the monthly breakdown and comparison. */
  datatype YearMonth = YearMonth(year: int, month: int)

  predicate IsLeapYear(y: int) {
    y % 4 == 0 && (y % 100 != 0 || y % 400 == 0)
  }

  predicate ValidMonth(m: int) {
    1 <= m <= 12
  }

  function DaysInMonth(y: int, m: int): (n: int)
    requires ValidMonth(m)
    ensures 28 <= n <= 31
    ensures n == 29 <==> m == 2 && IsLeapYear(y)
  {
    if m == 2 then (if IsLeapYear(y) then 29 else 28)
    else if m == 4 || m == 6 || m == 9 || m == 11 then 30
    else 31
  }

  predicate ValidDate(d: Date) {
    ValidMonth(d.month) && 1 <= d.day <= DaysInMonth(d.year, d.month)
  }

  /** Years that fit the four-digit `YYYY` field. */
  predicate FourDigitYear(y: int) {
    0 <= y <= 9999
  }

  /** Strict chronological order: lexicographic on (year, month, day). */
  predicate Precedes(a: Date, b: Date) {
    a.year < b.year
    || (a.year == b.year && a.month < b.month)
    || (a.year == b.year && a.month == b.month && a.day < b.day)
  }

  /** `a <= b` chronologically. */
  predicate NotAfter(a: Date, b: Date) {
    !Precedes(b, a)
  }

  function MonthOf(d: Date): YearMonth {
    YearMonth(d.year, d.month)
  }

  function FirstDay(ym: YearMonth): Date {
    Date(ym.year, ym.month, 1)
  }

  function LastDay(ym: YearMonth): (d: Date)
    requires ValidMonth(ym.month)
    ensures ValidDate(d) && MonthOf(d) == ym
    ensures ValidDate(Date(ym.year, ym.month, d.day + 1)) == false
  {
    Date(ym.year, ym.month, DaysInMonth(ym.year, ym.month))
  }

  /** The month after `ym`; December wraps to January of the next year. */
  function NextMonth(ym: YearMonth): (n: YearMonth)
    requires ValidMonth(ym.month)
    ensures ValidMonth(n.month)
  {
    if ym.month == 12 then YearMonth(ym.year + 1, 1) else YearMonth(ym.year, ym.month + 1)
  }

  /** Months counted from January of year 0. */
  function MonthIndex(ym: YearMonth): int {
    ym.year * 12 + (ym.month - 1)
  }

  /** The month with a given index, as `new Date(year, monthIndex, 1)` normalises an
      out-of-range month index into the neighbouring years. */
  function FromMonthIndex(i: int): (ym: YearMonth)
    ensures ValidMonth(ym.month)
    ensures MonthIndex(ym) == i
  {
    YearMonth(i / 12, i % 12 + 1)
  }

  /** The year `new Date(y, monthIndex, day)` builds on: a year from 0 to 99 is read
      as 1900 to 1999, any other year as given. */
  function ConstructorYear(y: int): (r: int)
    ensures r < 0 || r >= 100
    ensures r == y <==> y < 0 || y >= 100
    ensures r != y ==> r == 1900 + y
  {
    if 0 <= y <= 99 then 1900 + y else y
  }

  /** The month `new Date(y, monthIndex, 1)` falls in, for a zero-based month index
      that may run outside 0..11.  The two-digit year rule applies to `y` before
      the month index is normalised. */
  function ConstructedMonth(y: int, monthIndex: int): (ym: YearMonth)
    ensures ValidMonth(ym.month)
    ensures MonthIndex(ym) == MonthIndex(YearMonth(ConstructorYear(y), 1)) + monthIndex
  {
    FromMonthIndex(ConstructorYear(y) * 12 + monthIndex)
  }

  /** With an in-range month index, the constructed month is that month of the
      constructor's year, and the index after it gives the next month. */
  lemma ConstructedMonthInRange(y: int, m: int)
    requires ValidMonth(m)
    ensures ConstructedMonth(y, m - 1) == YearMonth(ConstructorYear(y), m)
    ensures ConstructedMonth(y, m) == NextMonth(YearMonth(ConstructorYear(y), m))
  {
    MonthIndexInjective(ConstructedMonth(y, m - 1), YearMonth(ConstructorYear(y), m));
    MonthIndexInjective(ConstructedMonth(y, m), NextMonth(YearMonth(ConstructorYear(y), m)));
  }

  /** A valid month is determined by its index. */
  lemma MonthIndexInjective(a: YearMonth, b: YearMonth)
    requires ValidMonth(a.month) && ValidMonth(b.month)
    requires MonthIndex(a) == MonthIndex(b)
    ensures a == b
  {
  }

  /** The explicit December wrap agrees with the index arithmetic: the next month
      has the next index, and it is the month the constructor normalises that index to. */
  lemma NextMonthIsShiftByOne(ym: YearMonth)
    requires ValidMonth(ym.month)
    ensures MonthIndex(NextMonth(ym)) == MonthIndex(ym) + 1
    ensures NextMonth(ym) == FromMonthIndex(MonthIndex(ym) + 1)
  {
    MonthIndexInjective(NextMonth(ym), FromMonthIndex(MonthIndex(ym) + 1));
  }

  /** Month order is index order: among valid months, an earlier year, or the same
      year and an earlier month, is exactly a smaller month index. */
  lemma MonthIndexOrder(a: YearMonth, b: YearMonth)
    requires ValidMonth(a.month) && ValidMonth(b.month)
    ensures MonthIndex(a) < MonthIndex(b) <==>
            (a.year < b.year || (a.year == b.year && a.month < b.month))
  {
    if a.year < b.year {
      assert MonthIndex(a) < a.year * 12 + 12 <= MonthIndex(b);
    } else if a.year > b.year {
      assert MonthIndex(b) < b.year * 12 + 12 <= MonthIndex(a);
    }
  }

  /** The half-open window [first of month, first of next month) holds exactly
      the days of that month, also for December. */
  lemma HalfOpenMonthWindow(d: Date, ym: YearMonth)
    requires ValidDate(d) && ValidMonth(ym.month)
    ensures (NotAfter(FirstDay(ym), d) && Precedes(d, FirstDay(NextMonth(ym)))) <==> MonthOf(d) == ym
  {
  }

  /** The closed window [first of month, last of month] holds exactly the days of that month. */
  lemma ClosedMonthWindow(d: Date, ym: YearMonth)
    requires ValidDate(d) && ValidMonth(ym.month)
    ensures (NotAfter(FirstDay(ym), d) && NotAfter(d, LastDay(ym))) <==> MonthOf(d) == ym
  {
  }

  /** `NotAfter` is a total order on dates. */
  lemma NotAfterTotalOrder(a: Date, b: Date, c: Date)
    ensures NotAfter(a, a)
    ensures NotAfter(a, b) || NotAfter(b, a)
    ensures NotAfter(a, b) && NotAfter(b, a) ==> a == b
    ensures NotAfter(a, b) && NotAfter(b, c) ==> NotAfter(a, c)
  {
  }

  /** An integer that orders valid dates as `NotAfter` does; `getTransactions` sorts by it. */
  function DayKey(d: Date): int {
    d.year * 10000 + d.month * 100 + d.day
  }

  lemma DayKeyOrder(a: Date, b: Date)
    requires ValidDate(a) && ValidDate(b)
    ensures NotAfter(a, b) <==> DayKey(a) <= DayKey(b)
  {
    if a.year < b.year {
      assert DayKey(a) < a.year * 10000 + 10000 <= DayKey(b);
    } else if a.year > b.year {
      assert DayKey(b) < b.year * 10000 + 10000 <= DayKey(a);
    }
  }

  /** Reads a `YYYY-MM-DD` string; `None` for anything else, including days the
      month does not have. */
  function ParseDate(s: string): (r: Option<Date>)
    ensures r.Some? ==> ValidDate(r.value) && FourDigitYear(r.value.year)
    ensures r.Some? ==> |s| == 10 && s[4] == '-' && s[7] == '-'
  {
    if |s| == 10 && s[4] == '-' && s[7] == '-'
       && AllDigits(s[..4]) && AllDigits(s[5..7]) && AllDigits(s[8..])
    then
      DigitsRoundTrip(s[..4]);
      var d := Date(DigitsValue(s[..4]), DigitsValue(s[5..7]), DigitsValue(s[8..]));
      if ValidDate(d) then Some(d) else None
    else None
  }

  /** Writes a date as `YYYY-MM-DD`. */
  function FormatDate(d: Date): (s: string)
    requires ValidDate(d) && FourDigitYear(d.year)
    ensures |s| == 10 && s[4] == '-' && s[7] == '-'
  {
    Fixed(d.year, 4) + "-" + Fixed(d.month, 2) + "-" + Fixed(d.day, 2)
  }

  /** Formatting a day and reading it back gives the same day. */
  lemma ParseFormatRoundTrip(d: Date)
    requires ValidDate(d) && FourDigitYear(d.year)
    ensures ParseDate(FormatDate(d)) == Some(d)
  {
    var s := FormatDate(d);
    assert s[..4] == Fixed(d.year, 4);
    assert s[5..7] == Fixed(d.month, 2);
    assert s[8..] == Fixed(d.day, 2);
    FixedRoundTrip(d.year, 4);
    FixedRoundTrip(d.month, 2);
    FixedRoundTrip(d.day, 2);
  }

  /** A string that reads as a day is exactly that day's `YYYY-MM-DD` form. */
  lemma FormatParseRoundTrip(s: string)
    requires ParseDate(s).Some?
    ensures FormatDate(ParseDate(s).value) == s
  {
    DigitsRoundTrip(s[..4]);
    DigitsRoundTrip(s[5..7]);
    DigitsRoundTrip(s[8..]);
    assert s == s[..4] + "-" + s[5..7] + "-" + s[8..];
  }

  /** `0000-01-15` reads as a real day, of year 0. */
  lemma YearZeroDayReads()
    ensures ParseDate("0000-01-15") == Some(Date(0, 1, 15))
  {
    var d := Date(0, 1, 15);
    assert Fixed(0, 4) == "0000" by {
      assert Fixed(0, 1) == "0";
      assert Fixed(0, 2) == "00";
      assert Fixed(0, 3) == "000";
    }
    assert Fixed(1, 2) == "01" by {
      assert Fixed(0, 1) == "0";
    }
    assert Fixed(15, 2) == "15" by {
      assert Fixed(1, 1) == "1";
    }
    assert FormatDate(d) == "0000-01-15";
    ParseFormatRoundTrip(d);
  }

  /** Days PostgreSQL's `date` type can hold.  It counts no year 0 (the year before
      1 AD is 1 BC), so a `0000-MM-DD` day is out of range, whether it is stored or
      bound as a query parameter. */
  predicate StorableDay(d: Date) {
    d.year >= 1
  }

  /** The two days of a date-range query as they reach the database.  The driver
      serialises the start day and then the end day, and a day that does not read
      as `YYYY-MM-DD` is an invalid time value before anything is sent.  The
      database then rejects a day its `date` type cannot hold. */
  function BindDays(start: string, end: string): (r: Result<(Date, Date)>)
    ensures r.Success? <==> ParseDate(start).Some? && ParseDate(end).Some?
                            && StorableDay(ParseDate(start).value) && StorableDay(ParseDate(end).value)
    ensures ParseDate(start).None? || ParseDate(end).None? ==> r == Failure(InvalidTimeValue)
    ensures ParseDate(start).Some? && ParseDate(end).Some? && r.Failure? ==> r == Failure(DateOutOfRange)
    ensures r.Success? ==> r.value == (ParseDate(start).value, ParseDate(end).value)
  {
    match (ParseDate(start), ParseDate(end))
    case (Some(lo), Some(hi)) =>
      if StorableDay(lo) && StorableDay(hi) then Success((lo, hi)) else Failure(DateOutOfRange)
    case _ => Failure(InvalidTimeValue)
  }
}
