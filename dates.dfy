/** Calendar dates as the holiday fetch reads them: the Gregorian validity
    rule of Python's `datetime.date`, the `'%Y-%m-%d'` pattern that
    `datetime.strptime` accepts, and the Sunday-first week column fixed by
    `calendar.Calendar(firstweekday=6)`. */
module Dates {
  import opened Wrappers

  datatype Date = Date(year: int, month: int, day: int)

  /** `datetime.MINYEAR` and `datetime.MAXYEAR`. */
  const MinYear := 1
  const MaxYear := 9999

  predicate IsLeapYear(year: int) {
    year % 4 == 0 && (year % 100 != 0 || year % 400 == 0)
  }

  function DaysInMonth(year: int, month: int): (n: int)
    requires 1 <= month <= 12
    ensures 28 <= n <= 31
    ensures month == 2 ==> (n == 29 <==> IsLeapYear(year))
  {
    if month == 2 then (if IsLeapYear(year) then 29 else 28)
    else if month == 4 || month == 6 || month == 9 || month == 11 then 30
    else 31
  }

  /** The dates `datetime.date` can represent. */
  predicate ValidDate(d: Date) {
    && MinYear <= d.year <= MaxYear
    && 1 <= d.month <= 12
    && 1 <= d.day <= DaysInMonth(d.year, d.month)
  }

  // ---------------------------------------------------------------------
  // Digits

  predicate IsDigit(c: char) {
    '0' <= c <= '9'
  }

  function DigitValue(c: char): (v: int)
    requires IsDigit(c)
    ensures 0 <= v <= 9
  {
    c as int - '0' as int
  }

  function DigitChar(v: int): (c: char)
    requires 0 <= v <= 9
    ensures IsDigit(c) && DigitValue(c) == v
  {
    (v + '0' as int) as char
  }

  predicate AllDigits(f: string) {
    forall k | 0 <= k < |f| :: IsDigit(f[k])
  }

  /** The number a string of decimal digits spells, most significant first. */
  function DecimalValue(f: string): (n: nat)
    requires AllDigits(f)
    decreases |f|
  {
    if f == [] then 0 else 10 * DecimalValue(f[..|f| - 1]) + DigitValue(f[|f| - 1])
  }

  /** The decimal value of a one- or two-digit string. */
  lemma ShortDecimalValue(f: string)
    ensures |f| == 1 && AllDigits(f) ==> DecimalValue(f) == DigitValue(f[0])
    ensures |f| == 2 && AllDigits(f) ==> DecimalValue(f) == 10 * DigitValue(f[0]) + DigitValue(f[1])
  {
    if 1 <= |f| <= 2 && AllDigits(f) {
      assert f[..|f| - 1][..0] == [];
      if |f| == 2 {
        assert f[..1][0] == f[0];
      }
    }
  }

  /** The decimal value of a four-digit string. */
  lemma FourDecimalValue(f: string)
    ensures |f| == 4 && AllDigits(f) ==>
      DecimalValue(f) == 1000 * DigitValue(f[0]) + 100 * DigitValue(f[1]) + 10 * DigitValue(f[2]) + DigitValue(f[3])
  {
    if |f| == 4 && AllDigits(f) {
      var f3 := f[..3];
      assert f3[..2] == f[..2];
      ShortDecimalValue(f[..2]);
      assert DecimalValue(f3) == 10 * DecimalValue(f[..2]) + DigitValue(f[2]);
    }
  }

  // ---------------------------------------------------------------------
  // The fields of '%Y-%m-%d'

  /** `%Y`: exactly four digits. */
  function YearField(f: string): (r: Option<int>)
    ensures r == if |f| == 4 && AllDigits(f) then Some(DecimalValue(f)) else None
    ensures r.Some? ==> 0 <= r.value <= MaxYear
  {
    FourDecimalValue(f);
    if |f| == 4 && IsDigit(f[0]) && IsDigit(f[1]) && IsDigit(f[2]) && IsDigit(f[3])
    then Some(1000 * DigitValue(f[0]) + 100 * DigitValue(f[1]) + 10 * DigitValue(f[2]) + DigitValue(f[3]))
    else None
  }

  /** `%m`: the alternatives `1[0-2]`, `0[1-9]` and `[1-9]`, so a one-digit
      month is accepted as well as a zero-padded one. */
  function MonthField(f: string): (r: Option<int>)
    ensures r == if 1 <= |f| <= 2 && AllDigits(f) && 1 <= DecimalValue(f) <= 12
                 then Some(DecimalValue(f)) else None
    ensures r.Some? ==> 1 <= |f| <= 2 && '-' !in f
  {
    ShortDecimalValue(f);
    if |f| == 2 && f[0] == '1' && '0' <= f[1] <= '2' then Some(10 + DigitValue(f[1]))
    else if |f| == 2 && f[0] == '0' && '1' <= f[1] <= '9' then Some(DigitValue(f[1]))
    else if |f| == 1 && '1' <= f[0] <= '9' then Some(DigitValue(f[0]))
    else None
  }

  /** `%d`: the alternatives `3[01]`, `[12]\d`, `0[1-9]`, `[1-9]` and
      ` [1-9]`; the last one admits a day padded with a space. */
  function DayField(f: string): (r: Option<int>)
    ensures r == if 1 <= |f| <= 2 && AllDigits(f) && 1 <= DecimalValue(f) <= 31 then Some(DecimalValue(f))
                 else if |f| == 2 && f[0] == ' ' && '1' <= f[1] <= '9' then Some(DigitValue(f[1]))
                 else None
    ensures r.Some? ==> 1 <= |f| <= 2
  {
    ShortDecimalValue(f);
    if |f| == 2 && f[0] == '3' && '0' <= f[1] <= '1' then Some(30 + DigitValue(f[1]))
    else if |f| == 2 && '1' <= f[0] <= '2' && IsDigit(f[1]) then Some(10 * DigitValue(f[0]) + DigitValue(f[1]))
    else if |f| == 2 && f[0] == '0' && '1' <= f[1] <= '9' then Some(DigitValue(f[1]))
    else if |f| == 1 && '1' <= f[0] <= '9' then Some(DigitValue(f[0]))
    else if |f| == 2 && f[0] == ' ' && '1' <= f[1] <= '9' then Some(DigitValue(f[1]))
    else None
  }

  /** The position of the first `c` in `s`, if any. */
  function FirstIndexOf(s: string, c: char): (r: Option<nat>)
    ensures r.None? <==> c !in s
    ensures r.Some? ==> r.value < |s| && s[r.value] == c && c !in s[..r.value]
  {
    if |s| == 0 then None
    else if s[0] == c then Some(0)
    else
      match FirstIndexOf(s[1..], c)
      case None => None
      case Some(k) =>
        assert s[..k + 1] == [s[0]] + s[1..][..k];
        Some(k + 1)
  }

  /** `datetime.strptime(s, '%Y-%m-%d').date()`, with the ValueError it
      raises as None: the whole string must match the pattern and the
      fields must name a date that exists. None of the three fields can
      contain `-`, so the month field runs up to the second dash. */
  function ParseDate(s: string): (r: Option<Date>)
    ensures r.Some? ==> ValidDate(r.value)
  {
    if |s| < 5 || s[4] != '-' then None
    else
      var rest := s[5..];
      match FirstIndexOf(rest, '-')
      case None => None
      case Some(j) =>
        var year, month, day := YearField(s[..4]), MonthField(rest[..j]), DayField(rest[j + 1..]);
        if year.Some? && month.Some? && day.Some? && ValidDate(Date(year.value, month.value, day.value))
        then Some(Date(year.value, month.value, day.value))
        else None
  }

  // ---------------------------------------------------------------------
  // The canonical spelling, the partner of ParseDate

  /** `f"{n:02}"` for a number below 100. */
  function TwoDigits(n: int): (s: string)
    requires 0 <= n < 100
    ensures |s| == 2 && IsDigit(s[0]) && IsDigit(s[1])
    ensures 10 * DigitValue(s[0]) + DigitValue(s[1]) == n
  {
    [DigitChar(n / 10), DigitChar(n % 10)]
  }

  /** `f"{n:04}"` for a number below 10000. */
  function FourDigits(n: int): (s: string)
    requires 0 <= n < 10000
    ensures |s| == 4 && IsDigit(s[0]) && IsDigit(s[1]) && IsDigit(s[2]) && IsDigit(s[3])
    ensures 1000 * DigitValue(s[0]) + 100 * DigitValue(s[1]) + 10 * DigitValue(s[2]) + DigitValue(s[3]) == n
  {
    TwoDigits(n / 100) + TwoDigits(n % 100)
  }

  /** The `YYYY-MM-DD` spelling of a date (`date.isoformat()`). */
  function FormatDate(d: Date): (s: string)
    requires ValidDate(d)
    ensures |s| == 10 && s[4] == '-' && s[7] == '-'
  {
    FourDigits(d.year) + "-" + TwoDigits(d.month) + "-" + TwoDigits(d.day)
  }

  /** Every zero-padded month number is read back by `%m`. */
  lemma MonthFieldReadsTwoDigits(m: int)
    requires 1 <= m <= 12
    ensures MonthField(TwoDigits(m)) == Some(m)
  {
  }

  /** Every zero-padded day number is read back by `%d`. */
  lemma DayFieldReadsTwoDigits(d: int)
    requires 1 <= d <= 31
    ensures DayField(TwoDigits(d)) == Some(d)
  {
  }

  /** Parsing the canonical spelling of any valid date gives that date. */
  lemma ParseFormatRoundTrip(d: Date)
    requires ValidDate(d)
    ensures ParseDate(FormatDate(d)) == Some(d)
  {
    var s := FormatDate(d);
    var rest := s[5..];
    assert s[..4] == FourDigits(d.year);
    assert rest == TwoDigits(d.month) + "-" + TwoDigits(d.day);
    assert rest[2] == '-' && rest[0] != '-' && rest[1] != '-';
    assert '-' !in rest[..2];
    assert FirstIndexOf(rest, '-') == Some(2);
    assert rest[..2] == TwoDigits(d.month);
    assert rest[3..] == TwoDigits(d.day);
    MonthFieldReadsTwoDigits(d.month);
    DayFieldReadsTwoDigits(d.day);
  }

  /** Conversely, a ten-character string that parses, and whose day is not
      space-padded, is the canonical spelling of its date. */
  lemma ParsedCanonicalIsFormatted(s: string, d: Date)
    requires ParseDate(s) == Some(d)
    requires |s| == 10 && s[8] != ' '
    ensures FormatDate(d) == s
  {
    var rest := s[5..];
    var j := FirstIndexOf(rest, '-').value;
    var monthField, dayField := rest[..j], rest[j + 1..];
    assert MonthField(monthField).Some? && DayField(dayField).Some?;
    assert j == 2;
    assert dayField[0] == s[8];
    TwoDigitsOfField(monthField);
    TwoDigitsOfField(dayField);
    FourDigitsOfField(s[..4]);
    assert s == s[..4] + "-" + monthField + "-" + dayField;
  }

  /** A two-digit field is the zero-padded spelling of the number it denotes. */
  lemma TwoDigitsOfField(f: string)
    requires |f| == 2 && IsDigit(f[0]) && IsDigit(f[1])
    ensures TwoDigits(10 * DigitValue(f[0]) + DigitValue(f[1])) == f
  {
  }

  /** A four-digit field is the zero-padded spelling of the number it denotes. */
  lemma FourDigitsOfField(f: string)
    requires |f| == 4 && IsDigit(f[0]) && IsDigit(f[1]) && IsDigit(f[2]) && IsDigit(f[3])
    ensures FourDigits(1000 * DigitValue(f[0]) + 100 * DigitValue(f[1]) + 10 * DigitValue(f[2]) + DigitValue(f[3])) == f
  {
    var hi := 10 * DigitValue(f[0]) + DigitValue(f[1]);
    var lo := 10 * DigitValue(f[2]) + DigitValue(f[3]);
    var n := 100 * hi + lo;
    assert n / 100 == hi && n % 100 == lo;
    TwoDigitsOfField(f[..2]);
    TwoDigitsOfField(f[2..]);
    assert f == f[..2] + f[2..];
  }

  /** A leap day parses in a leap year. */
  lemma ParseLeapDay()
    ensures ParseDate("2024-02-29") == Some(Date(2024, 2, 29))
  {
    var s := "2024-02-29";
    assert s[5..] == "02-29" && s[..4] == "2024";
    assert FirstIndexOf("02-29", '-') == Some(2);
    assert "02-29"[..2] == "02" && "02-29"[3..] == "29";
  }

  /** A leap day in a common year is rejected although every field is
      well-formed. */
  lemma RejectImpossibleLeapDay()
    ensures ParseDate("2023-02-29") == None
  {
    var s := "2023-02-29";
    assert s[5..] == "02-29" && s[..4] == "2023";
    assert FirstIndexOf("02-29", '-') == Some(2);
    assert "02-29"[..2] == "02" && "02-29"[3..] == "29";
    assert !ValidDate(Date(2023, 2, 29));
  }

  /** `%m` and `%d` accept one-digit fields. */
  lemma ParseOneDigitFields()
    ensures ParseDate("2024-1-5") == Some(Date(2024, 1, 5))
  {
    var s := "2024-1-5";
    assert s[5..] == "1-5" && s[..4] == "2024";
    assert YearField("2024") == Some(2024);
    assert FirstIndexOf("1-5", '-') == Some(1);
    assert "1-5"[..1] == "1" && "1-5"[2..] == "5";
    assert MonthField("1") == Some(1) && DayField("5") == Some(5);
  }

  /** `%d` accepts a day padded with a space. */
  lemma ParseSpacePaddedDay()
    ensures ParseDate("2024-01- 5") == Some(Date(2024, 1, 5))
  {
    var t := "2024-01- 5";
    assert t[5..] == "01- 5" && t[..4] == "2024";
    assert YearField("2024") == Some(2024);
    assert FirstIndexOf("01- 5", '-') == Some(2);
    assert "01- 5"[..2] == "01" && "01- 5"[3..] == " 5";
    assert MonthField("01") == Some(1) && DayField(" 5") == Some(5);
  }

  /** Year 0 is outside `datetime`'s range. */
  lemma RejectYearZero()
    ensures ParseDate("0000-01-01") == None
  {
    assert "0000-01-01"[..4] == "0000";
    assert YearField("0000") == Some(0);
  }

  /** Month 13 matches none of the `%m` alternatives. */
  lemma RejectMonthThirteen()
    ensures ParseDate("2024-13-01") == None
  {
    assert "2024-13-01"[5..] == "13-01";
    assert FirstIndexOf("13-01", '-') == Some(2);
    assert "13-01"[..2] == "13";
  }

  /** Characters left over after the day field are rejected. */
  lemma RejectTrailingCharacters()
    ensures ParseDate("2024-01-011") == None
  {
    assert "2024-01-011"[5..] == "01-011";
    assert FirstIndexOf("01-011", '-') == Some(2);
    assert "01-011"[3..] == "011";
  }

  // ---------------------------------------------------------------------
  // Weekdays and the Sunday-first column

  /** Days before January 1 of `year`, counted from 0001-01-01. */
  function DaysBeforeYear(year: int): int
    requires year >= 1
  {
    var y := year - 1;
    y * 365 + y / 4 - y / 100 + y / 400
  }

  /** Days before the first of each month in a common year: the table
      `_DAYS_BEFORE_MONTH` of Python's `datetime`, written out. */
  const CommonYearDaysBefore: seq<int> := [0, 31, 59, 90, 120, 151, 181, 212, 243, 273, 304, 334]

  /** Days in `year` before the first of `month`, summed from the month
      lengths; it agrees with the table plus the leap day after February. */
  function DaysBeforeMonth(year: int, month: int): (n: int)
    requires 1 <= month <= 12
    ensures n == CommonYearDaysBefore[month - 1] + (if month > 2 && IsLeapYear(year) then 1 else 0)
  {
    if month == 1 then 0 else DaysBeforeMonth(year, month - 1) + DaysInMonth(year, month - 1)
  }

  /** `date.toordinal()`: 0001-01-01 is day 1. */
  function Ordinal(d: Date): int
    requires ValidDate(d)
  {
    DaysBeforeYear(d.year) + DaysBeforeMonth(d.year, d.month) + d.day
  }

  /** The day after `d` (`d + timedelta(days=1)`); the last representable
      date has none. */
  function NextDay(d: Date): (next: Date)
    requires ValidDate(d) && d != Date(MaxYear, 12, 31)
    ensures ValidDate(next)
  {
    if d.day < DaysInMonth(d.year, d.month) then Date(d.year, d.month, d.day + 1)
    else if d.month < 12 then Date(d.year, d.month + 1, 1)
    else Date(d.year + 1, 1, 1)
  }

  /** Floor division by each divisor of the leap rule steps up exactly at
      its multiples. */
  lemma FloorStep(y: int, k: int)
    requires k == 4 || k == 100 || k == 400
    ensures y / k - (y - 1) / k == if y % k == 0 then 1 else 0
  {
    var q, r := (y - 1) / k, (y - 1) % k;
    assert y - 1 == k * q + r && 0 <= r < k;
    if r == k - 1 {
      assert y == k * (q + 1);
    } else {
      assert y == k * q + (r + 1) && 0 < r + 1 < k;
    }
  }

  /** The closed form for whole years agrees with the month lengths: a
      year has 366 days exactly when it is a leap year. */
  lemma YearLength(year: int)
    requires year >= 1
    ensures DaysBeforeYear(year + 1) - DaysBeforeYear(year) == if IsLeapYear(year) then 366 else 365
  {
    FloorStep(year, 4);
    FloorStep(year, 100);
    FloorStep(year, 400);
    if year % 400 == 0 {
      assert year == 100 * (4 * (year / 400));
      assert year == 4 * (100 * (year / 400));
    }
    if year % 100 == 0 {
      assert year == 4 * (25 * (year / 100));
    }
  }

  /** Across a month end the ordinal advances by one day. */
  lemma MonthEndOrdinal(d: Date)
    requires ValidDate(d) && d.month < 12 && d.day == DaysInMonth(d.year, d.month)
    ensures Ordinal(Date(d.year, d.month + 1, 1)) == Ordinal(d) + 1
  {
  }

  /** Across a year end the ordinal advances by one day. */
  lemma YearEndOrdinal(year: int)
    requires MinYear <= year < MaxYear
    ensures Ordinal(Date(year + 1, 1, 1)) == Ordinal(Date(year, 12, 31)) + 1
  {
    YearLength(year);
  }

  /** The next day is always the next ordinal. */
  lemma NextDayOrdinal(d: Date)
    requires ValidDate(d) && d != Date(MaxYear, 12, 31)
    ensures Ordinal(NextDay(d)) == Ordinal(d) + 1
  {
    if d.day == DaysInMonth(d.year, d.month) {
      if d.month < 12 {
        MonthEndOrdinal(d);
      } else {
        YearEndOrdinal(d.year);
      }
    }
  }

  /** `date.weekday()`: Monday is 0 and Sunday is 6. */
  function Weekday(d: Date): (w: int)
    requires ValidDate(d)
    ensures 0 <= w < 7
  {
    (Ordinal(d) + 6) % 7
  }

  /** The first day of the week, `calendar.SUNDAY`. */
  const FirstWeekday := 6

  /** The column of a weekday in a week that starts on FirstWeekday. */
  function Column(weekday: int): (c: int)
    requires 0 <= weekday < 7
    ensures 0 <= c < 7
    ensures c == (weekday + 1) % 7
    ensures c == 0 <==> weekday == 6
    ensures c == 6 <==> weekday == 5
  {
    (weekday - FirstWeekday) % 7
  }

  /** Distinct weekdays get distinct columns. */
  lemma ColumnIsInjective(w1: int, w2: int)
    requires 0 <= w1 < 7 && 0 <= w2 < 7
    requires Column(w1) == Column(w2)
    ensures w1 == w2
  {
  }

  /** Taking the successor commutes with reduction modulo 7. */
  lemma SuccessorMod7(x: int)
    ensures (x + 1) % 7 == (x % 7 + 1) % 7
  {
    var q, r := x / 7, x % 7;
    assert x + 1 == 7 * q + (r + 1);
    if r == 6 {
      assert x + 1 == 7 * (q + 1);
    }
  }

  /** The next day has the next weekday and sits one column further,
      wrapping from Saturday back to Sunday, across month and year ends
      as well. */
  lemma NextDayNextColumn(d: Date)
    requires ValidDate(d) && d != Date(MaxYear, 12, 31)
    ensures Weekday(NextDay(d)) == (Weekday(d) + 1) % 7
    ensures Column(Weekday(NextDay(d))) == (Column(Weekday(d)) + 1) % 7
  {
    var o := Ordinal(d);
    NextDayOrdinal(d);
    SuccessorMod7(o + 6);
    assert Weekday(NextDay(d)) == (Weekday(d) + 1) % 7;
  }

  /** The calendar starts on a Monday: 0001-01-01 has ordinal 1 and
      weekday 0. */
  lemma FirstDayIsMonday()
    ensures Ordinal(Date(MinYear, 1, 1)) == 1
    ensures Weekday(Date(MinYear, 1, 1)) == 0
  {
    var d := Date(MinYear, 1, 1);
    assert ValidDate(d);
    var o := Ordinal(d);
    assert o == 1 by {
      assert DaysBeforeYear(1) == 0;
      assert DaysBeforeMonth(1, 1) == 0;
    }
    assert Weekday(d) == (o + 6) % 7;
  }

  /** January 2024: the 1st is a Monday (column 1), the 6th a Saturday
      (column 6) and the 7th a Sunday (column 0). */
  lemma January2024Columns()
    ensures Column(Weekday(Date(2024, 1, 1))) == 1
    ensures Column(Weekday(Date(2024, 1, 6))) == 6
    ensures Column(Weekday(Date(2024, 1, 7))) == 0
  {
  }
}
