/** Calendar dates as (year, month, day) in the proleptic Gregorian calendar,
    as JavaScript's `Date` reads them through `getFullYear`, `getMonth() + 1`
    and `getDate`. Time of day and time zones are not modelled: a `Date` here
    is a local calendar day. */
module Dates {
  import opened Wrappers
  import opened Strings

  datatype Date = Date(year: int, month: int, day: int)

  predicate IsLeapYear(y: int) {
    (y % 4 == 0 && y % 100 != 0) || y % 400 == 0
  }

  function DaysInMonth(y: int, m: int): (n: int)
    requires 1 <= m <= 12
    ensures 28 <= n <= 31
    ensures m == 2 ==> (n == 29 <==> IsLeapYear(y))
  {
    if m == 2 then (if IsLeapYear(y) then 29 else 28)
    else if m == 4 || m == 6 || m == 9 || m == 11 then 30
    else 31
  }

  function DaysInYear(y: int): int {
    if IsLeapYear(y) then 366 else 365
  }

  predicate ValidDate(d: Date) {
    1 <= d.month <= 12 && 1 <= d.day <= DaysInMonth(d.year, d.month)
  }

  /** Days from 0001-01-01 to January 1 of year `y`. */
  function DaysBeforeYear(y: int): int {
    var p := y - 1;
    365 * p + p / 4 - p / 100 + p / 400
  }

  /** Days from January 1 to the first of month `m` (13 means the next January). */
  function DaysBeforeMonth(y: int, m: int): int
    requires 1 <= m <= 13
  {
    var table := [0, 31, 59, 90, 120, 151, 181, 212, 243, 273, 304, 334, 365];
    table[m - 1] + (if m > 2 && IsLeapYear(y) then 1 else 0)
  }

  /** The number of days since 0001-01-01, which is 0 (negative before it). */
  function DayNumber(d: Date): int
    requires 1 <= d.month <= 12
  {
    DaysBeforeYear(d.year) + DaysBeforeMonth(d.year, d.month) + d.day - 1
  }

  /** `getDay()`: 0 is Sunday, 6 is Saturday. 0001-01-01 was a Monday. */
  function DayOfWeek(d: Date): (w: int)
    requires 1 <= d.month <= 12
    ensures 0 <= w < 7
  {
    (DayNumber(d) + 1) % 7
  }

  lemma DaysBeforeNextMonth(y: int, m: int)
    requires 1 <= m <= 12
    ensures DaysBeforeMonth(y, m + 1) == DaysBeforeMonth(y, m) + DaysInMonth(y, m)
  {
  }

  lemma DaysBeforeNextYear(y: int)
    ensures DaysBeforeYear(y + 1) == DaysBeforeYear(y) + DaysInYear(y)
  {
    var p := y - 1;
    DivStep4(p);
    DivStep100(p);
    DivStep400(p);
  }

  /** `p / 4` goes up by one from `p` to `p + 1` exactly when 4 divides `p + 1`;
      the same holds for 100 and 400 below. */
  lemma DivStep4(p: int)
    ensures (p + 1) / 4 == p / 4 + (if (p + 1) % 4 == 0 then 1 else 0)
  {
  }

  lemma DivStep100(p: int)
    ensures (p + 1) / 100 == p / 100 + (if (p + 1) % 100 == 0 then 1 else 0)
  {
  }

  lemma DivStep400(p: int)
    ensures (p + 1) / 400 == p / 400 + (if (p + 1) % 400 == 0 then 1 else 0)
  {
  }

  /** The day after `d`, rolling over the month and the year. */
  function NextDay(d: Date): (r: Date)
    requires ValidDate(d)
    ensures ValidDate(r)
  {
    if d.day < DaysInMonth(d.year, d.month) then Date(d.year, d.month, d.day + 1)
    else if d.month < 12 then Date(d.year, d.month + 1, 1)
    else Date(d.year + 1, 1, 1)
  }

  /** The day before `d`. */
  function PrevDay(d: Date): (r: Date)
    requires ValidDate(d)
    ensures ValidDate(r)
  {
    if d.day > 1 then Date(d.year, d.month, d.day - 1)
    else if d.month > 1 then Date(d.year, d.month - 1, DaysInMonth(d.year, d.month - 1))
    else Date(d.year - 1, 12, 31)
  }

  lemma NextDayNumber(d: Date)
    requires ValidDate(d)
    ensures DayNumber(NextDay(d)) == DayNumber(d) + 1
  {
    if d.day == DaysInMonth(d.year, d.month) {
      DaysBeforeNextMonth(d.year, d.month);
      if d.month == 12 {
        DaysBeforeNextYear(d.year);
      }
    }
  }

  lemma PrevDayNumber(d: Date)
    requires ValidDate(d)
    ensures DayNumber(PrevDay(d)) == DayNumber(d) - 1
    ensures NextDay(PrevDay(d)) == d
  {
    if d.day == 1 {
      if d.month > 1 {
        DaysBeforeNextMonth(d.year, d.month - 1);
      } else {
        DaysBeforeNextYear(d.year - 1);
      }
    }
  }

  /** `setDate(getDate() + n)`: `n` days later (earlier when negative). */
  function AddDays(d: Date, n: int): (r: Date)
    requires ValidDate(d)
    ensures ValidDate(r)
    decreases if n < 0 then -n else n
  {
    if n == 0 then d
    else if n > 0 then AddDays(NextDay(d), n - 1)
    else AddDays(PrevDay(d), n + 1)
  }

  lemma {:induction false} AddDaysNumber(d: Date, n: int)
    requires ValidDate(d)
    ensures DayNumber(AddDays(d, n)) == DayNumber(d) + n
    decreases if n < 0 then -n else n
  {
    hide NextDay, PrevDay, DayNumber, DaysBeforeYear, DaysBeforeMonth, DaysInMonth;
    if n > 0 {
      NextDayNumber(d);
      AddDaysNumber(NextDay(d), n - 1);
    } else if n < 0 {
      PrevDayNumber(d);
      AddDaysNumber(PrevDay(d), n + 1);
    }
  }

  /** `setDate(getDate() + 7)`: a week later, on the same weekday. */
  function NextWeek(d: Date): (r: Date)
    requires ValidDate(d)
    ensures ValidDate(r)
    ensures DayNumber(r) == DayNumber(d) + 7
    ensures DayOfWeek(r) == DayOfWeek(d)
  {
    WeekLater(d);
    AddDays(d, 7)
  }

  lemma WeekLater(d: Date)
    requires ValidDate(d)
    ensures DayNumber(AddDays(d, 7)) == DayNumber(d) + 7
    ensures DayOfWeek(AddDays(d, 7)) == DayOfWeek(d)
  {
    hide AddDays, NextDay, PrevDay, DayNumber;
    AddDaysNumber(d, 7);
    var x := DayNumber(d) + 1;
    assert (x + 7) % 7 == x % 7;
  }

  /** `new Date(y, m0, day)` with a zero-based month: the month and the day
      may lie outside their ranges and are carried into the year and month. */
  function MakeDate(y: int, m0: int, day: int): (r: Date)
    ensures ValidDate(r)
  {
    AddDays(Date(y + m0 / 12, m0 % 12 + 1, 1), day - 1)
  }

  /** `new Date(y, 11, 31)`: December 31 of year `y`. */
  function EndOfYear(y: int): (r: Date)
    ensures r == Date(y, 12, 31) && ValidDate(r)
  {
    MakeDateInRange(y, 11, 31);
    MakeDate(y, 11, 31)
  }

  /** In-range arguments give that very date. */
  lemma MakeDateInRange(y: int, m0: int, day: int)
    requires 0 <= m0 < 12 && 1 <= day <= DaysInMonth(y, m0 + 1)
    ensures MakeDate(y, m0, day) == Date(y, m0 + 1, day)
  {
    AddDaysWithinMonth(Date(y, m0 + 1, 1), day - 1);
  }

  lemma {:induction false} AddDaysWithinMonth(d: Date, n: nat)
    requires ValidDate(d) && d.day + n <= DaysInMonth(d.year, d.month)
    ensures AddDays(d, n) == Date(d.year, d.month, d.day + n)
    decreases n
  {
    if n > 0 {
      AddDaysWithinMonth(NextDay(d), n - 1);
    }
  }

  /** `new Date(y, m0 + 1, 0).getDate()` is the length of month `m0 + 1`. */
  lemma DayZeroIsLastDay(y: int, m0: int)
    requires 0 <= m0 < 12
    ensures MakeDate(y, m0 + 1, 0) == Date(y, m0 + 1, DaysInMonth(y, m0 + 1))
  {
    var first := Date(y + (m0 + 1) / 12, (m0 + 1) % 12 + 1, 1);
    assert MakeDate(y, m0 + 1, 0) == AddDays(first, -1);
    assert AddDays(first, -1) == AddDays(PrevDay(first), 0);
  }

  /** The weekday advances by one each day, wrapping from Saturday to Sunday. */
  lemma NextDayWeekday(d: Date)
    requires ValidDate(d)
    ensures DayOfWeek(NextDay(d)) == if DayOfWeek(d) == 6 then 0 else DayOfWeek(d) + 1
  {
    NextDayNumber(d);
    WeekdayStep(DayNumber(d) + 1);
  }

  lemma WeekdayStep(x: int)
    ensures (x + 1) % 7 == if x % 7 == 6 then 0 else x % 7 + 1
  {
    assert x == 7 * (x / 7) + x % 7;
    if x % 7 == 6 {
      assert x + 1 == 7 * (x / 7 + 1);
    } else {
      assert x + 1 == 7 * (x / 7) + (x % 7 + 1);
    }
  }

  /** Two distinct days with the same weekday lie at least a week apart. */
  lemma SameWeekdayApart(a: Date, b: Date)
    requires ValidDate(a) && ValidDate(b)
    requires DayOfWeek(a) == DayOfWeek(b) && DayNumber(a) < DayNumber(b)
    ensures DayNumber(a) + 7 <= DayNumber(b)
  {
    var x, y := DayNumber(a) + 1, DayNumber(b) + 1;
    assert x == 7 * (x / 7) + x % 7;
    assert y == 7 * (y / 7) + y % 7;
    assert y - x == 7 * (y / 7 - x / 7);
  }

  /** January 1 and December 31 of year `y` bound exactly its days. */
  lemma InYear(d: Date, y: int)
    requires ValidDate(d)
    ensures DayNumber(Date(y, 1, 1)) == DaysBeforeYear(y)
    ensures DayNumber(Date(y, 12, 31)) == DaysBeforeYear(y + 1) - 1
    ensures d.year == y <==> DayNumber(Date(y, 1, 1)) <= DayNumber(d) <= DayNumber(Date(y, 12, 31))
  {
    hide DaysBeforeYear;
    DaysBeforeNextYear(y);
    DayNumberWithinYear(d);
    if d.year < y {
      DaysBeforeYearMonotone(d.year + 1, y);
    } else if d.year > y {
      DaysBeforeYearMonotone(y + 1, d.year);
    }
  }

  /** Day-number order: how JavaScript compares two `Date` values. */
  predicate Before(a: Date, b: Date)
    requires 1 <= a.month <= 12 && 1 <= b.month <= 12
  {
    DayNumber(a) < DayNumber(b)
  }

  predicate LexLess(a: Date, b: Date) {
    a.year < b.year || (a.year == b.year && (a.month < b.month || (a.month == b.month && a.day < b.day)))
  }

  lemma {:induction false} DaysBeforeYearMonotone(a: int, b: int)
    requires a <= b
    ensures DaysBeforeYear(a) + 365 * (b - a) <= DaysBeforeYear(b)
    decreases b - a
  {
    if a < b {
      DaysBeforeNextYear(a);
      DaysBeforeYearMonotone(a + 1, b);
    }
  }

  lemma DayNumberWithinYear(d: Date)
    requires ValidDate(d)
    ensures DaysBeforeYear(d.year) <= DayNumber(d) < DaysBeforeYear(d.year + 1)
  {
    DaysBeforeNextYear(d.year);
    DaysBeforeNextMonth(d.year, d.month);
    DaysBeforeMonthMonotone(d.year, d.month + 1, 13);
  }

  lemma DaysBeforeMonthMonotone(y: int, m: int, n: int)
    requires 1 <= m <= n <= 13
    ensures DaysBeforeMonth(y, m) <= DaysBeforeMonth(y, n)
    ensures m < n ==> DaysBeforeMonth(y, m) + 28 <= DaysBeforeMonth(y, n)
  {
  }

  /** Day numbers follow the calendar order of (year, month, day). */
  lemma DayNumberOrder(a: Date, b: Date)
    requires ValidDate(a) && ValidDate(b)
    ensures LexLess(a, b) ==> DayNumber(a) < DayNumber(b)
  {
    if a.year < b.year {
      DayNumberWithinYear(a);
      DayNumberWithinYear(b);
      DaysBeforeYearMonotone(a.year + 1, b.year);
    } else if a.year == b.year && a.month < b.month {
      DaysBeforeNextMonth(a.year, a.month);
      DaysBeforeMonthMonotone(a.year, a.month + 1, b.month);
    }
  }

  /** Distinct valid dates have distinct day numbers. */
  lemma DayNumberInjective(a: Date, b: Date)
    requires ValidDate(a) && ValidDate(b) && DayNumber(a) == DayNumber(b)
    ensures a == b
  {
    DayNumberOrder(a, b);
    DayNumberOrder(b, a);
  }

  /** `YYYY-MM-DD` built from `getFullYear()`, a zero-padded `getMonth() + 1`
      and a zero-padded `getDate()`. The year is not padded. */
  function FormatDate(d: Date): string {
    IntToString(d.year) + "-" + Pad2(IntToString(d.month)) + "-" + Pad2(IntToString(d.day))
  }

  /** `new Date("YYYY-MM-DD")` on a date-only ISO string: four year digits,
      two month digits and two day digits naming a real calendar day;
      anything else is an invalid date (`None`). */
  function ParseIsoDate(s: string): (r: Option<Date>)
    ensures r.Some? ==> ValidDate(r.value) && 0 <= r.value.year <= 9999
  {
    if |s| == 10 && s[4] == '-' && s[7] == '-'
       && AllDigits(s[..4]) && AllDigits(s[5..7]) && AllDigits(s[8..])
    then
      var d := Date(DigitsValue(s[..4]), DigitsValue(s[5..7]), DigitsValue(s[8..]));
      assert DigitsValue(s[..4]) <= 9999 by { DigitsBound(s[..4]); }
      if ValidDate(d) then Some(d) else None
    else None
  }

  /** `new Date(s)` compared or subtracted as a number: its day number, or
      `None` for an invalid date (NaN). */
  function DateValue(s: string): (v: Option<int>)
    ensures v.Some? <==> ParseIsoDate(s).Some?
    ensures v.Some? ==> v.value == DayNumber(ParseIsoDate(s).value)
  {
    match ParseIsoDate(s)
    case Some(d) => Some(DayNumber(d))
    case None => None
  }

  /** 1970-01-01, the date `new Date(0)` and `new Date(null)` stand for. */
  const Epoch := Date(1970, 1, 1)

  lemma {:induction false} DigitsBound(s: string)
    requires AllDigits(s)
    ensures DigitsValue(s) < Power10(|s|)
  {
    if s != [] {
      DigitsBound(s[..|s| - 1]);
    }
  }

  function Power10(n: nat): (r: nat)
    ensures r >= 1
  {
    if n == 0 then 1 else 10 * Power10(n - 1)
  }

  lemma PaddedTwoDigits(n: int)
    requires 1 <= n <= 99
    ensures |Pad2(IntToString(n))| == 2 && AllDigits(Pad2(IntToString(n)))
    ensures DigitsValue(Pad2(IntToString(n))) == n
  {
    var t := Pad2(IntToString(n));
    if n < 10 {
      assert IntToString(n) == [DigitChar(n)];
      assert t == ['0', DigitChar(n)];
      assert t[..1] == ['0'] && ['0'][..0] == [];
      assert DigitsValue(['0']) == 0;
      assert DigitValue(DigitChar(n)) == n;
    } else {
      NatToStringValue(n);
      assert n / 10 < 10;
    }
  }

  lemma FourDigitYear(y: int)
    requires 1000 <= y <= 9999
    ensures |IntToString(y)| == 4 && DigitsValue(IntToString(y)) == y
  {
    NatToStringValue(y);
    assert Power10(3) == 1000 && Power10(4) == 10000;
    NatToStringLength(y, 3);
  }

  lemma {:induction false} NatToStringLength(n: nat, k: nat)
    requires Power10(k) <= n < Power10(k + 1)
    ensures |NatToString(n)| == k + 1
  {
    if k > 0 {
      NatToStringLength(n / 10, k - 1);
    }
  }

  /** Formatting a date with a four-digit year and parsing it back gives it back. */
  lemma ParseFormatDate(d: Date)
    requires ValidDate(d) && 1000 <= d.year <= 9999
    ensures ParseIsoDate(FormatDate(d)) == Some(d)
  {
    var s := FormatDate(d);
    var y := IntToString(d.year);
    var m := Pad2(IntToString(d.month));
    var dd := Pad2(IntToString(d.day));
    FourDigitYear(d.year);
    PaddedTwoDigits(d.month);
    PaddedTwoDigits(d.day);
    assert s == y + "-" + m + "-" + dd;
    assert s[..4] == y && s[5..7] == m && s[8..] == dd;
  }
}
