/** Calendar dates, as numbers of days and as text. */
module Dates {
  import opened Text
  import Calendar

  // ----- the civil calendar

  /** Proleptic Gregorian dates from year 0. */
  datatype Date = Date(year: nat, month: nat, day: nat)

  predicate IsLeap(year: nat) {
    year % 4 == 0 && (year % 100 != 0 || year % 400 == 0)
  }

  function DaysIn(year: nat, month: nat): nat {
    if month == 2 then (if IsLeap(year) then 29 else 28)
    else if month == 4 || month == 6 || month == 9 || month == 11 then 30
    else 31
  }

  predicate Valid(d: Date) {
    1 <= d.month <= 12 && 1 <= d.day <= DaysIn(d.year, d.month)
  }

  function DaysBeforeMonth(year: nat, month: nat): nat {
    if month <= 1 then 0 else DaysBeforeMonth(year, month - 1) + DaysIn(year, month - 1)
  }

  /** How many multiples of `n` there are below `year`. */
  function Multiples(year: nat, n: nat): nat
    requires n > 0
  {
    (year + n - 1) / n
  }

  function DaysBeforeYear(year: nat): int {
    365 * year + Multiples(year, 4) - Multiples(year, 100) + Multiples(year, 400)
  }

  /** Days since 1970-01-01. */
  function DayNumber(d: Date): int {
    DaysBeforeYear(d.year) + DaysBeforeMonth(d.year, d.month) + d.day - 1 - 719_528
  }

  function NextDay(d: Date): Date {
    if d.day < DaysIn(d.year, d.month) then d.(day := d.day + 1)
    else if d.month < 12 then Date(d.year, d.month + 1, 1)
    else Date(d.year + 1, 1, 1)
  }

  lemma NextMultiples(year: nat, n: nat)
    requires n == 4 || n == 100 || n == 400
    ensures Multiples(year + 1, n) == Multiples(year, n) + if year % n == 0 then 1 else 0
  {
  }

  lemma FourTimes(k: nat)
    ensures 4 * k % 4 == 0
  {
  }

  lemma HundredTimes(k: nat)
    ensures 100 * k % 100 == 0
  {
  }

  lemma HundredsAreFours(year: nat)
    requires year % 100 == 0
    ensures year % 4 == 0
  {
    var q := year / 100;
    FourTimes(25 * q);
  }

  lemma FourHundredsAreHundreds(year: nat)
    requires year % 400 == 0
    ensures year % 100 == 0
  {
    var q := year / 400;
    HundredTimes(4 * q);
  }

  lemma YearLength(year: nat)
    ensures DaysBeforeYear(year + 1) == DaysBeforeYear(year) + if IsLeap(year) then 366 else 365
  {
    hide Multiples;
    NextMultiples(year, 4);
    NextMultiples(year, 100);
    NextMultiples(year, 400);
    if year % 400 == 0 {
      FourHundredsAreHundreds(year);
    }
    if year % 100 == 0 {
      HundredsAreFours(year);
    }
  }

  lemma MonthsOfYear(year: nat)
    ensures DaysBeforeMonth(year, 12) + 31 == if IsLeap(year) then 366 else 365
  {
    assert DaysBeforeMonth(year, 2) == 31;
    assert DaysBeforeMonth(year, 3) == 31 + DaysIn(year, 2);
    assert DaysBeforeMonth(year, 5) == DaysBeforeMonth(year, 3) + 61;
    assert DaysBeforeMonth(year, 7) == DaysBeforeMonth(year, 5) + 61;
    assert DaysBeforeMonth(year, 9) == DaysBeforeMonth(year, 7) + 62;
    assert DaysBeforeMonth(year, 11) == DaysBeforeMonth(year, 9) + 61;
    assert DaysBeforeMonth(year, 12) == DaysBeforeMonth(year, 11) + 30;
  }

  /** The next date has the next number: days are numbered without gaps. */
  lemma NextDayNumber(d: Date)
    requires Valid(d)
    ensures Valid(NextDay(d)) && DayNumber(NextDay(d)) == DayNumber(d) + 1
  {
    if d.day == DaysIn(d.year, d.month) && d.month == 12 {
      YearLength(d.year);
      MonthsOfYear(d.year);
    }
  }

  function DateOf(n: nat): Date {
    if n == 0 then Date(0, 1, 1) else NextDay(DateOf(n - 1))
  }

  /** Every day from 0000-01-01 on has a date, and that date has the day's number. */
  lemma {:induction false} EveryDayHasADate(n: nat)
    ensures Valid(DateOf(n)) && DayNumber(DateOf(n)) == n - 719_528
  {
    if n > 0 {
      EveryDayHasADate(n - 1);
      NextDayNumber(DateOf(n - 1));
    }
  }

  /** The anchors of the numbering: 1970-01-01 is day 0, and 2026-05-04 is day 20577, a Monday. */
  lemma KnownDates()
    ensures DayNumber(Date(1970, 1, 1)) == 0 && DayNumber(Date(2026, 5, 4)) == 20_577
    ensures Calendar.WeekdayOf(DayNumber(Date(2026, 5, 4))) == 1
  {
    assert DaysBeforeMonth(2026, 2) == 31;
    assert DaysBeforeMonth(2026, 3) == 59;
    assert DaysBeforeMonth(2026, 4) == 90;
  }

  lemma {:induction false} MonthsAscend(year: nat, m: nat, m': nat)
    requires 1 <= m < m'
    ensures DaysBeforeMonth(year, m) + DaysIn(year, m) <= DaysBeforeMonth(year, m')
    decreases m'
  {
    if m + 1 < m' {
      MonthsAscend(year, m, m' - 1);
    }
  }

  lemma {:induction false} YearsAscend(y: nat, y': nat)
    requires y < y'
    ensures DaysBeforeYear(y) + 365 + (if IsLeap(y) then 1 else 0) <= DaysBeforeYear(y')
    decreases y'
  {
    YearLength(y' - 1);
    if y + 1 < y' {
      YearsAscend(y, y' - 1);
    }
  }

  lemma WithinYear(d: Date)
    requires Valid(d)
    ensures DaysBeforeMonth(d.year, d.month) + d.day <= if IsLeap(d.year) then 366 else 365
  {
    MonthsOfYear(d.year);
    if d.month < 12 {
      MonthsAscend(d.year, d.month, 12);
    }
  }

  predicate Earlier(a: Date, b: Date) {
    a.year < b.year || (a.year == b.year && (a.month < b.month || (a.month == b.month && a.day < b.day)))
  }

  lemma EarlierIsLess(a: Date, b: Date)
    requires Valid(a) && Valid(b) && Earlier(a, b)
    ensures DayNumber(a) < DayNumber(b)
  {
    hide DaysBeforeMonth, DaysBeforeYear, IsLeap;
    if a.year < b.year {
      YearsAscend(a.year, b.year);
      WithinYear(a);
    } else if a.month < b.month {
      MonthsAscend(a.year, a.month, b.month);
    }
  }

  /** Earlier dates are smaller numbers. */
  lemma DatesAreInOrder(a: Date, b: Date)
    requires Valid(a) && Valid(b)
    ensures Earlier(a, b) <==> DayNumber(a) < DayNumber(b)
    ensures a == b <==> DayNumber(a) == DayNumber(b)
  {
    hide DayNumber, Valid;
    if Earlier(a, b) {
      EarlierIsLess(a, b);
    }
    if Earlier(b, a) {
      EarlierIsLess(b, a);
    }
  }

  // ----- dates as text

  function Power10(w: nat): nat {
    if w == 0 then 1 else 10 * Power10(w - 1)
  }

  function Digits(n: nat, w: nat): string {
    if w == 0 then "" else Digits(n / 10, w - 1) + [('0' as int + n % 10) as char]
  }

  /** Years 0000 to 9999, as `2006-01-02`. */
  function FormatDate(year: nat, month: nat, day: nat): string {
    Digits(year, 4) + ("-" + (Digits(month, 2) + ("-" + Digits(day, 2))))
  }

  function Format(d: Date): string {
    FormatDate(d.year, d.month, d.day)
  }

  /** Numerals of one width compare as the numbers do, and then as what follows them. */
  lemma {:induction false} DigitsCompare(a: nat, b: nat, w: nat, s: string, t: string)
    requires a < Power10(w) && b < Power10(w)
    ensures Before(Digits(a, w) + s, Digits(b, w) + t) <==> a < b || (a == b && Before(s, t))
    decreases w
  {
    if w == 0 {
      assert Digits(a, w) + s == s && Digits(b, w) + t == t;
    } else {
      var c, d := ('0' as int + a % 10) as char, ('0' as int + b % 10) as char;
      DigitsCompare(a / 10, b / 10, w - 1, [c] + s, [d] + t);
      assert Digits(a, w) + s == Digits(a / 10, w - 1) + ([c] + s);
      assert Digits(b, w) + t == Digits(b / 10, w - 1) + ([d] + t);
      assert ([c] + s)[1..] == s && ([d] + t)[1..] == t;
    }
  }

  /** Dates as text compare in calendar order, so `checkin_date >= ?` selects by date. */
  lemma DatesCompareAsText(y: nat, m: nat, d: nat, y': nat, m': nat, d': nat)
    requires y < 10000 && y' < 10000 && m < 100 && m' < 100 && d < 100 && d' < 100
    ensures Before(FormatDate(y, m, d), FormatDate(y', m', d')) <==> Earlier(Date(y, m, d), Date(y', m', d'))
    ensures FormatDate(y, m, d) == FormatDate(y', m', d') <==> (y, m, d) == (y', m', d')
  {
    CompareDates(y, m, d, y', m', d');
    CompareDates(y', m', d', y, m, d);
    BeforeIsTotal(FormatDate(y, m, d), FormatDate(y', m', d'));
  }

  lemma CompareDates(y: nat, m: nat, d: nat, y': nat, m': nat, d': nat)
    requires y < 10000 && y' < 10000 && m < 100 && m' < 100 && d < 100 && d' < 100
    ensures Before(FormatDate(y, m, d), FormatDate(y', m', d')) <==> Earlier(Date(y, m, d), Date(y', m', d'))
  {
    hide Digits, Power10;
    Powers();
    var s, s' := Digits(d, 2), Digits(d', 2);
    var u, u' := Digits(m, 2) + ("-" + s), Digits(m', 2) + ("-" + s');
    assert s + "" == s && s' + "" == s';
    DigitsCompare(d, d', 2, "", "");
    DashCompare(s, s');
    DigitsCompare(m, m', 2, "-" + s, "-" + s');
    DashCompare(u, u');
    DigitsCompare(y, y', 4, "-" + u, "-" + u');
  }

  lemma Powers()
    ensures Power10(2) == 100 && Power10(4) == 10000
  {
  }

  lemma DashCompare(s: string, t: string)
    ensures Before("-" + s, "-" + t) <==> Before(s, t)
  {
  }

  lemma KnownText()
    ensures Format(Date(2026, 5, 4)) == "2026-05-04"
  {
    assert Digits(2026, 4) == "2026" && Digits(5, 2) == "05" && Digits(4, 2) == "04";
  }

  /** So stored date text, for years up to 9999, compares as the numbers of the days do. */
  lemma TextOrderIsDayOrder(a: Date, b: Date)
    requires Valid(a) && Valid(b) && a.year < 10000 && b.year < 10000
    ensures Before(Format(a), Format(b)) <==> DayNumber(a) < DayNumber(b)
    ensures Format(a) == Format(b) <==> DayNumber(a) == DayNumber(b)
  {
    DatesAreInOrder(a, b);
    hide DayNumber, FormatDate;
    DatesCompareAsText(a.year, a.month, a.day, b.year, b.month, b.day);
  }
}
