/**
 Dates as the ledger stores them: full-date text in the form of section 5.6 of
 RFC 3339, compared as strings in place of the calendar (the ordering property
 of section 5.1 of RFC 3339).
 */
module Dates {
  import opened Outcomes
  import opened Decimal
  import opened TextOps

  const U32_MAX: int := 0xFFFF_FFFF
  const I32_MAX: int := 0x7FFF_FFFF
  const I32_MIN: int := -0x8000_0000
  const CHRONO_MIN_YEAR: int := -262143
  const CHRONO_MAX_YEAR: int := 262142

  /** Rust's integer `from_str`: an optional sign, then at least one digit, in range. */
  function ParseInt(s: string, low: int, high: int): Option<int> {
    var signed := s != "" && (s[0] == '+' || (s[0] == '-' && low < 0));
    var digits := if signed then s[1..] else s;
    if digits == "" || !AllDigits(digits) then None
    else
      var v: int := Value(digits);
      var n := if s[0] == '-' then -v else v;
      if low <= n <= high then Some(n) else None
  }

  predicate IsLeapYear(y: int) {
    y % 4 == 0 && (y % 100 != 0 || y % 400 == 0)
  }

  function DaysInMonth(y: int, m: int): int
    requires 1 <= m <= 12
  {
    if m == 2 then (if IsLeapYear(y) then 29 else 28)
    else if m in {4, 6, 9, 11} then 30 else 31
  }

  predicate IsCalendarDate(y: int, m: int, d: int) {
    CHRONO_MIN_YEAR <= y <= CHRONO_MAX_YEAR && 1 <= m <= 12 && 1 <= d <= DaysInMonth(y, m)
  }

  /** `%Y`: four digits for years 0 to 9999; outside them a sign, and at least four digits. */
  function YearText(y: int): string {
    if 0 <= y <= 9999 then Padded(y, 4)
    else
      var magnitude: nat := if y < 0 then -y else y;
      (if y < 0 then "-" else "+") + if magnitude < 1000 then Padded(magnitude, 4) else Text(magnitude)
  }

  function IsoDate(y: int, m: nat, d: nat): string {
    YearText(y) + "-" + Padded(m, 2) + "-" + Padded(d, 2)
  }

  function ParseDateMdy(raw: string): Option<string> {
    var parts := SplitOn(Trim(raw), '/');
    if |parts| != 3 then None
    else
      match (ParseInt(parts[0], 0, U32_MAX), ParseInt(parts[1], 0, U32_MAX), ParseInt(parts[2], I32_MIN, I32_MAX))
      case (Some(m), Some(d), Some(y)) =>
        if IsCalendarDate(y, m, d) then Some(IsoDate(y, m, d)) else None
      case _ => None
  }

  // ----- stored dates -----

  /** `YYYY-MM-DD` with a month of the year and a day no month exceeds. */
  predicate IsIso(s: string) {
    && |s| == 10 && s[4] == '-' && s[7] == '-'
    && AllDigits(s[..4]) && AllDigits(s[5..7]) && AllDigits(s[8..])
    && 1 <= Value(s[5..7]) <= 12 && 1 <= Value(s[8..]) <= 31
  }

  /** `YYYY-MM`. */
  predicate IsIsoMonth(s: string) {
    && |s| == 7 && s[4] == '-'
    && AllDigits(s[..4]) && AllDigits(s[5..])
    && 1 <= Value(s[5..]) <= 12
  }

  /** Months, counted across years, of a date or a month. */
  function MonthIndex(s: string): nat
    requires IsIso(s) || IsIsoMonth(s)
  {
    12 * Value(s[..4]) + Value(s[5..7])
  }

  lemma MonthTextOrder(a: string, b: string)
    requires IsIsoMonth(a) && IsIsoMonth(b)
    ensures StrLe(a, b) <==> MonthIndex(a) <= MonthIndex(b)
    ensures a == b <==> MonthIndex(a) == MonthIndex(b)
  {
    assert a == a[..4] + ("-" + a[5..]) && b == b[..4] + ("-" + b[5..]);
    assert a[5..7] == a[5..] && b[5..7] == b[5..];
    StrLeByHead(a[..4], "-" + a[5..], b[..4], "-" + b[5..]);
    StrLeByHead("-", a[5..], "-", b[5..]);
    DigitOrder(a[..4], b[..4]);
    DigitOrder(a[5..], b[5..]);
  }

  lemma MonthOfDate(date: string)
    requires IsIso(date)
    ensures IsIsoMonth(date[..7]) && MonthIndex(date[..7]) == MonthIndex(date)
    ensures date == date[..7] + ("-" + date[8..])
  {
    var month := date[..7];
    assert month[..4] == date[..4] && month[5..] == date[5..7] && month[5..7] == date[5..7];
  }

  /** The upper edge of the window: a date is at or before `month || '-31'` as
      text exactly when its month is at or before that month. */
  lemma AtOrBeforeMonthEnd(date: string, month: string)
    requires IsIso(date) && IsIsoMonth(month)
    ensures StrLe(date, month + "-31") <==> MonthIndex(date) <= MonthIndex(month)
  {
    MonthOfDate(date);
    MonthTextOrder(date[..7], month);
    StrLeByHead(date[..7], "-" + date[8..], month, "-31");
    StrLeByHead("-", date[8..], "-", "31");
    DigitOrder(date[8..], "31");
    assert "-31" == "-" + "31" && "31"[..1][..0] == "";
    assert Value("31") == 31 by { assert "31"[..1] == "3"; }
  }

  /** The lower edge: `date >= month || '-01'`. */
  lemma AtOrAfterMonthStart(date: string, month: string)
    requires IsIso(date) && IsIsoMonth(month)
    ensures StrLe(month + "-01", date) <==> MonthIndex(month) <= MonthIndex(date)
  {
    MonthOfDate(date);
    MonthTextOrder(month, date[..7]);
    StrLeByHead(month, "-01", date[..7], "-" + date[8..]);
    StrLeByHead("-", "01", "-", date[8..]);
    DigitOrder("01", date[8..]);
    assert "-01" == "-" + "01" && "01"[..1][..0] == "";
    assert Value("01") == 1 by { assert "01"[..1] == "0"; }
  }

  // ----- what the importer stores -----

  lemma PowersOfTen()
    ensures Power10(2) == 100 && Power10(4) == 10000
  {
    assert Power10(1) == 10 && Power10(3) == 1000;
  }

  lemma IsoDateShape(y: int, m: nat, d: nat)
    requires 0 <= y <= 9999 && 1 <= m <= 12 && 1 <= d <= 31
    ensures IsIso(IsoDate(y, m, d))
    ensures MonthIndex(IsoDate(y, m, d)) == 12 * y + m
    ensures Value(IsoDate(y, m, d)[8..]) == d
  {
    hide Value, Power10, Padded;
    var s := IsoDate(y, m, d);
    PowersOfTen();
    PaddedValue(y, 4);
    PaddedValue(m, 2);
    PaddedValue(d, 2);
    assert s[..4] == Padded(y, 4) && s[5..7] == Padded(m, 2) && s[8..] == Padded(d, 2);
    assert s[4] == '-' && s[7] == '-';
  }

  lemma FourDigitYear(y: string)
    requires |y| == 4 && AllDigits(y)
    ensures Value(y) <= 9999
  {
    ValueBound(y);
    PowersOfTen();
  }

  lemma IsoDateParts(y: int, m: nat, d: nat)
    requires 0 <= y <= 9999 && IsCalendarDate(y, m, d)
    ensures IsIso(IsoDate(y, m, d))
    ensures var s := IsoDate(y, m, d); Value(s[..4]) == y && Value(s[5..7]) == m && Value(s[8..]) == d
  {
    hide Value, Power10, Padded;
    var s := IsoDate(y, m, d);
    IsoDateShape(y, m, d);
    PowersOfTen();
    PaddedValue(y, 4);
    PaddedValue(m, 2);
    assert s[..4] == Padded(y, 4) && s[5..7] == Padded(m, 2);
  }

  // ----- the calendar -----

  /** The days of a year's first months. */
  function DaysOfMonths(y: int, months: nat): int
    requires months <= 12
  {
    if months == 0 then 0 else DaysOfMonths(y, months - 1) + DaysInMonth(y, months)
  }

  /** How many leap days the years up to `y` have had, by counting multiples. */
  function LeapDays(y: int): int {
    y / 4 - y / 100 + y / 400
  }

  /** A year has 365 days and its leap day, if counting multiples of 4, 100 and 400 says
      that it has one. */
  lemma YearLength(y: int)
    ensures DaysOfMonths(y, 12) == 365 + LeapDays(y) - LeapDays(y - 1)
  {
    hide LeapDays;
    LeapDayExactly(y);
    assert DaysOfMonths(y, 1) == 31 by { assert DaysOfMonths(y, 0) == 0; }
    assert DaysOfMonths(y, 3) == 31 + DaysInMonth(y, 2) + 31;
    assert DaysOfMonths(y, 5) == DaysOfMonths(y, 3) + 61;
    assert DaysOfMonths(y, 7) == DaysOfMonths(y, 5) + 61;
    assert DaysOfMonths(y, 9) == DaysOfMonths(y, 7) + 61;
    assert DaysOfMonths(y, 11) == DaysOfMonths(y, 9) + 61;
  }

  lemma LeapDayExactly(y: int)
    ensures LeapDays(y) - LeapDays(y - 1) == if IsLeapYear(y) then 1 else 0
  {
    assert y / 4 - (y - 1) / 4 == if y % 4 == 0 then 1 else 0;
    assert y / 100 - (y - 1) / 100 == if y % 100 == 0 then 1 else 0;
    assert y / 400 - (y - 1) / 400 == if y % 400 == 0 then 1 else 0;
  }

  /** The calendar's first and last year. */
  lemma CalendarYears(y: int)
    ensures IsCalendarDate(y, 1, 1) <==> -262143 <= y <= 262142
  {
  }

  /** Long months and short ones alternate, July and August apart; February is short. */
  lemma MonthLengths(y: int, m: int)
    requires 1 <= m <= 12
    ensures m != 2 ==> DaysInMonth(y, m) == 30 + (m + m / 8) % 2
    ensures DaysInMonth(y, 2) in [28, 29]
  {
  }

  /** Text order is calendar order for years written in four digits. */
  lemma TextOrderIsCalendarOrder(y: int, m: nat, d: nat, y': int, m': nat, d': nat)
    requires 0 <= y <= 9999 && IsCalendarDate(y, m, d)
    requires 0 <= y' <= 9999 && IsCalendarDate(y', m', d')
    ensures StrLe(IsoDate(y, m, d), IsoDate(y', m', d'))
         <==> NoLater(y, m, d, y', m', d')
  {
    hide Value, IsoDate, StrLe;
    var a, b := IsoDate(y, m, d), IsoDate(y', m', d');
    IsoDateShape(y, m, d);
    IsoDateShape(y', m', d');
    MonthOfDate(a);
    MonthOfDate(b);
    MonthTextOrder(a[..7], b[..7]);
    StrLeByHead(a[..7], "-" + a[8..], b[..7], "-" + b[8..]);
    StrLeByHead("-", a[8..], "-", b[8..]);
    DigitOrder(a[8..], b[8..]);
  }

  predicate NoLater(y: int, m: nat, d: nat, y': int, m': nat, d': nat) {
    y < y' || (y == y' && (m < m' || (m == m' && d <= d')))
  }

  lemma SignedYearText(y: int)
    requires !(0 <= y <= 9999)
    ensures YearText(y) != "" && YearText(y)[0] == if y < 0 then '-' else '+'
  {
  }

  lemma FirstCharDecides(a: string, b: string)
    requires a != "" && b != "" && a[0] != b[0]
    ensures StrLe(a, b) <==> a[0] < b[0]
  {
  }

  /** Beside four-digit years, text order is calendar order for a date exactly
      when its own year needs no more than four digits: a later year is written
      with a `+`, which sorts before every digit. */
  lemma TextOrderExact(y: int, m: nat, d: nat, y': int, m': nat, d': nat)
    requires IsCalendarDate(y, m, d)
    requires 0 <= y' <= 9999 && IsCalendarDate(y', m', d')
    ensures (StrLe(IsoDate(y, m, d), IsoDate(y', m', d')) <==> NoLater(y, m, d, y', m', d'))
         <==> y <= 9999
  {
    if 0 <= y <= 9999 {
      TextOrderIsCalendarOrder(y, m, d, y', m', d');
    } else {
      SignedYearText(y);
      var a, b := IsoDate(y, m, d), IsoDate(y', m', d');
      assert a[0] == YearText(y)[0];
      assert IsDigit(b[0]) by { assert b[0] == Padded(y', 4)[0]; }
      FirstCharDecides(a, b);
    }
  }

  lemma ParseIntDigits(s: string, low: int, high: int)
    requires s != "" && AllDigits(s) && low <= 0
    ensures ParseInt(s, low, high) == if Value(s) <= high then Some(Value(s)) else None
  {
  }

  /** A sign in front: a plus is nothing, a minus negates where negatives have a place. */
  lemma ParseIntSigned(s: string, low: int, high: int)
    requires s != "" && AllDigits(s)
    ensures low <= 0 ==> ParseInt("+" + s, low, high) == ParseInt(s, low, high)
    ensures ParseInt("-" + s, low, high) == if low < 0 && low <= 0 - Value(s) <= high then Some(0 - Value(s)) else None
    ensures ParseInt("", low, high) == None
  {
    assert ("+" + s)[1..] == s && ("-" + s)[1..] == s;
  }

  /** Years past four digits are spelled out behind their sign. */
  lemma LongYear(y: nat)
    requires y > 9999
    ensures YearText(y) == "+" + Text(y) && YearText(0 - y) == "-" + Text(y)
  {
  }

  lemma SplitThree(a: string, b: string, c: string, sep: char)
    requires sep !in a && sep !in b && sep !in c
    ensures SplitOn(a + [sep] + (b + [sep] + c), sep) == [a, b, c]
  {
    SplitOnHead(a, b + [sep] + c, sep);
    SplitOnHead(b, c, sep);
    SplitOnNothing(c, sep);
  }

  /** What a statement writes as month, day and year is stored as that date,
      and refused when the calendar has no such day. */
  lemma ParseDateMdyReads(m: string, d: string, y: string)
    requires m != "" && AllDigits(m) && d != "" && AllDigits(d) && y != "" && AllDigits(y)
    ensures ParseDateMdy(m + "/" + (d + "/" + y))
         == if IsCalendarDate(Value(y), Value(m), Value(d)) then Some(IsoDate(Value(y), Value(m), Value(d))) else None
  {
    hide ParseInt, IsoDate, SplitOn, Trim;
    var raw := m + "/" + (d + "/" + y);
    assert Trim(raw) == raw by {
      assert raw[0] == m[0] && raw[|raw| - 1] == y[|y| - 1];
      TrimKeeps(raw);
    }
    assert SplitOn(raw, '/') == [m, d, y] by {
      SplitThree(m, d, y, '/');
    }
    ParseIntDigits(m, 0, U32_MAX);
    ParseIntDigits(d, 0, U32_MAX);
    ParseIntDigits(y, I32_MIN, I32_MAX);
  }

  /** Four-digit years are stored in the sortable form. */
  lemma FourDigitYearsStoreIso(m: string, d: string, y: string)
    requires m != "" && AllDigits(m) && d != "" && AllDigits(d) && |y| == 4 && AllDigits(y)
    requires IsCalendarDate(Value(y), Value(m), Value(d))
    ensures ParseDateMdy(m + "/" + (d + "/" + y)).Some?
         && IsIso(ParseDateMdy(m + "/" + (d + "/" + y)).value)
  {
    ParseDateMdyReads(m, d, y);
    ValueBound(y);
    assert Power10(4) == 10000 by { assert Power10(2) == 100; }
    IsoDateShape(Value(y), Value(m), Value(d));
  }

  /** A real one: the first day of year 10000 is accepted, and sorts before 2025. */
  lemma YearTenThousandSortsFirst()
    ensures ParseDateMdy("1/1/10000") == Some("+10000-01-01")
    ensures StrLe("+10000-01-01", "2025-01-01") && !NoLater(10000, 1, 1, 2025, 1, 1)
  {
    hide ParseDateMdy, Value, IsoDate;
    TenThousandDigits();
    ParseDateMdyReads("1", "1", "10000");
    assert "1/1/10000" == "1" + "/" + ("1" + "/" + "10000");
    TenThousandText();
    FirstCharDecides("+10000-01-01", "2025-01-01");
  }

  lemma TenThousandDigits()
    ensures Value("1") == 1 && Value("10000") == 10000
  {
    assert "1"[..0] == "" && "10000"[..4] == "1000" && "1000"[..3] == "100" && "100"[..2] == "10" && "10"[..1] == "1";
    assert Value("10") == 10;
    assert Value("100") == 100;
    assert Value("1000") == 1000;
  }

  lemma TenThousandText()
    ensures IsoDate(10000, 1, 1) == "+10000-01-01"
  {
    assert Padded(0, 1) == "0" by { assert Padded(0, 0) == ""; }
    assert Padded(1, 2) == "01";
    assert Text(1) == "1" && Text(10) == "10";
    assert Text(100) == "100";
    assert Text(1000) == "1000";
    assert Text(10000) == "10000";
  }
}
